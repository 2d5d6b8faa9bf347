/**
 * What `Lut::parse` does with each kind of line, and what it returns for
 * whole files, stated on the step function that the `Parser` methods are
 * proved against.
 */
module LutProperties {
  import opened Wrappers
  import opened Text
  import opened Errors
  import opened Cubes
  import opened Collecting
  import opened Luts

  predicate NoSpace(w: seq<Byte>)
  {
    forall k :: 0 <= k < |w| ==> w[k] != SPACE
  }

  /** A first word that the split at the first space leaves whole and that is not a comment. */
  predicate Plain(w: seq<Byte>)
  {
    w != [] && w[0] != HASH && NoSpace(w)
  }

  /** Every keyword is a plain word that decodes as its directive. */
  lemma Keywords()
    ensures Plain(KeyTitle) && DirectiveOf(KeyTitle) == Some(Title)
    ensures Plain(KeyInVideoRange) && DirectiveOf(KeyInVideoRange) == Some(InVideoRange)
    ensures Plain(KeyOutVideoRange) && DirectiveOf(KeyOutVideoRange) == Some(OutVideoRange)
    ensures Plain(Key1DSize) && DirectiveOf(Key1DSize) == Some(Size1D)
    ensures Plain(Key3DSize) && DirectiveOf(Key3DSize) == Some(Size3D)
    ensures Plain(Key1DInputRange) && DirectiveOf(Key1DInputRange) == Some(InputRangeDirective)
    ensures Plain(Key3DInputRange) && DirectiveOf(Key3DInputRange) == Some(InputRangeDirective)
    ensures Plain(KeyDomainMin) && DirectiveOf(KeyDomainMin) == Some(DomainMin)
    ensures Plain(KeyDomainMax) && DirectiveOf(KeyDomainMax) == Some(DomainMax)
  {
  }

  /** A line as `read_line` returns it: its text, then the newline. */
  function LineOf(s: seq<Byte>): seq<Byte>
  {
    s + [NEWLINE]
  }

  /** The line `word arg`, split at its first space. */
  function Spaced(word: seq<Byte>, arg: seq<Byte>): seq<Byte>
  {
    LineOf(word + [SPACE] + arg)
  }

  // ---------------------------------------------------------------------
  // Lines that change nothing or end the parse before any split

  /** A line of fewer than two bytes is skipped, whatever the state. */
  lemma ShortLineSkipped(st: State, line: seq<Byte>, parseF32: F32Parser)
    requires |line| < 2
    ensures Step(st, line, parseF32) == Next(st)
  {
  }

  /** Dropping a last byte that continues a multi-byte character panics. */
  lemma CutCharacterPanics(st: State, line: seq<Byte>, parseF32: F32Parser)
    requires |line| >= 2 && IsContinuation(line[|line| - 1])
    ensures Step(st, line, parseF32) == Halt(Panicked)
  {
  }

  /**
   * A line whose text (its last byte dropped, whatever that byte is) has no
   * space and does not start with `#` is skipped, whatever the state.
   */
  lemma {:induction false} UnsplitLineSkipped(st: State, s: seq<Byte>, last: Byte, parseF32: F32Parser)
    requires Plain(s) && !IsContinuation(last)
    ensures Step(st, s + [last], parseF32) == Next(st)
  {
    assert (s + [last])[..|s|] == s;
    assert SplitOnce(s, {SPACE}).None?;
  }

  /** A flag directive without a space after it is one of those lines. */
  lemma BareFlagIgnored(st: State, parseF32: F32Parser)
    ensures Step(st, LineOf(KeyInVideoRange), parseF32) == Next(st)
    ensures Step(st, LineOf(KeyOutVideoRange), parseF32) == Next(st)
  {
    Keywords();
    UnsplitLineSkipped(st, KeyInVideoRange, NEWLINE, parseF32);
    UnsplitLineSkipped(st, KeyOutVideoRange, NEWLINE, parseF32);
  }

  // ---------------------------------------------------------------------
  // Comments

  /**
   * A line starting with `#` (last byte dropped) joins the comments, after a
   * single newline if there were comments already, collector or not.
   */
  lemma {:induction false} CommentAppended(st: State, s: seq<Byte>, last: Byte, parseF32: F32Parser)
    requires s != [] && s[0] == HASH && !IsContinuation(last)
    ensures Step(st, s + [last], parseF32) == Next(st.(comments := AppendComment(st.comments, s)))
  {
    assert (s + [last])[..|s|] == s;
  }

  /** The comments joined by single newlines, in order. */
  function Join(cs: seq<seq<Byte>>): seq<Byte>
  {
    if cs == [] then []
    else if |cs| == 1 then cs[0]
    else cs[0] + [NEWLINE] + Join(cs[1..])
  }

  function CommentLines(cs: seq<seq<Byte>>): (lines: seq<seq<Byte>>)
    ensures |lines| == |cs|
  {
    if cs == [] then [] else [LineOf(cs[0])] + CommentLines(cs[1..])
  }

  predicate IsComment(c: seq<Byte>)
  {
    c != [] && c[0] == HASH
  }

  /** Appending the first comment and then the others joined is appending them all joined. */
  lemma AppendJoined(comments: seq<Byte>, cs: seq<seq<Byte>>)
    requires |cs| > 1 && cs[0] != []
    ensures AppendComment(AppendComment(comments, cs[0]), Join(cs[1..])) == AppendComment(comments, Join(cs))
  {
    assert Join(cs) == cs[0] + [NEWLINE] + Join(cs[1..]);
    if comments != [] {
      assert comments + [NEWLINE] + cs[0] + [NEWLINE] + Join(cs[1..]) == comments + [NEWLINE] + Join(cs);
    }
  }

  /**
   * Comment lines read one after another leave the comments of the file
   * joined in file order by single newlines, after any earlier comments.
   */
  lemma {:induction false} CommentsInOrder(st: State, cs: seq<seq<Byte>>, parseF32: F32Parser)
    requires cs != [] && forall i :: 0 <= i < |cs| ==> IsComment(cs[i])
    ensures Feed(st, CommentLines(cs), parseF32) == Next(st.(comments := AppendComment(st.comments, Join(cs))))
    decreases |cs|
  {
    var lines := CommentLines(cs);
    CommentAppended(st, cs[0], NEWLINE, parseF32);
    var st' := st.(comments := AppendComment(st.comments, cs[0]));
    assert lines[0] == LineOf(cs[0]) && lines[1..] == CommentLines(cs[1..]);
    Advance(st, lines, parseF32);
    if |cs| > 1 {
      assert forall i :: 0 <= i < |cs[1..]| ==> IsComment(cs[1..][i]) by {
        forall i | 0 <= i < |cs[1..]| ensures IsComment(cs[1..][i]) {
          assert cs[1..][i] == cs[i + 1];
        }
      }
      CommentsInOrder(st', cs[1..], parseF32);
      AppendJoined(st.comments, cs);
    }
  }

  // ---------------------------------------------------------------------
  // Lines with a space

  /**
   * A line `word arg` whose word has no space and does not start with `#`
   * is a data row while a collector is active, and otherwise a header line
   * keyed by `word`.
   */
  lemma {:induction false} SpacedLine(st: State, word: seq<Byte>, arg: seq<Byte>, parseF32: F32Parser)
    requires Plain(word)
    ensures Step(st, Spaced(word, arg), parseF32) ==
      if st.collector.Some? then CollectRow(st, Spaced(word, arg), word, arg, parseF32)
      else HeaderLine(st, Spaced(word, arg), word, arg, parseF32)
  {
    var s := word + [SPACE] + arg;
    assert Spaced(word, arg)[..|s|] == s;
    assert s[0] == word[0];
    SplitOnceAt(word, SPACE, arg, {SPACE});
  }

  /** `TITLE` keeps everything after the first space, spaces included. */
  lemma TitleLine(st: State, arg: seq<Byte>, parseF32: F32Parser)
    requires st.collector.None?
    ensures Step(st, Spaced(KeyTitle, arg), parseF32) == Next(st.(title := Some(arg)))
  {
    Keywords();
    SpacedLine(st, KeyTitle, arg, parseF32);
  }

  /** The video-range flags are set by their directive followed by a space and anything. */
  lemma FlagLines(st: State, arg: seq<Byte>, parseF32: F32Parser)
    requires st.collector.None?
    ensures Step(st, Spaced(KeyInVideoRange, arg), parseF32) == Next(st.(inVideoRange := true))
    ensures Step(st, Spaced(KeyOutVideoRange, arg), parseF32) == Next(st.(outVideoRange := true))
  {
    Keywords();
    SpacedLine(st, KeyInVideoRange, arg, parseF32);
    SpacedLine(st, KeyOutVideoRange, arg, parseF32);
  }

  function SizeWord(dim: nat): seq<Byte>
  {
    if dim == 1 then Key1DSize else Key3DSize
  }

  /** The cube `LUT_1D_SIZE n` (`dim == 1`) or `LUT_3D_SIZE n` (`dim == 3`) declares. */
  function Declared(dim: nat, n: U16): CubeValue
  {
    if dim == 1 then OneDValue(n) else ThreeDValue(n)
  }

  /**
   * A size directive: an argument that is not a `u16` is `InvalidSize`;
   * otherwise the new cube is pending, the cube pending before moves to the
   * shaper slot exactly when a 1D size had been seen already, and only a 1D
   * size marks that one has been seen.
   */
  lemma SizeLine(st: State, dim: nat, arg: seq<Byte>, parseF32: F32Parser)
    requires st.collector.None? && (dim == 1 || dim == 3)
    ensures Step(st, Spaced(SizeWord(dim), arg), parseF32) ==
      match ParseU16(arg)
      case Err(kind) => Halt(Returned(Err(InvalidSize(kind))))
      case Ok(n) =>
        Next(st.(possibleShaper := st.possibleShaper || dim == 1,
                 shaper := if st.possibleShaper then st.cube else st.shaper,
                 cube := Some(Declared(dim, n))))
  {
    Keywords();
    SpacedLine(st, SizeWord(dim), arg, parseF32);
  }

  /**
   * An input-range directive: with no pending cube, `UnexpectedInputRange`
   * naming the line; otherwise the text after the directive split at its
   * first space gives `min..=max`, any order accepted, and only the pending
   * cube's range changes; a half that does not parse is `InvalidInputRange`.
   */
  lemma InputRangeLine(st: State, word: seq<Byte>, x: seq<Byte>, y: seq<Byte>, parseF32: F32Parser)
    requires st.collector.None? && (word == Key1DInputRange || word == Key3DInputRange)
    requires NoSpace(x)
    ensures var line := Spaced(word, x + [SPACE] + y);
      Step(st, line, parseF32) ==
        if st.cube.None? then Halt(Returned(Err(UnexpectedInputRange(line))))
        else if parseF32(x).Some? && parseF32(y).Some? then
          Next(st.(cube := Some(st.cube.value.(inputRange := Some(InputRange(parseF32(x).value, parseF32(y).value))))))
        else Halt(Returned(Err(InvalidInputRange(x + [SPACE] + y))))
  {
    Keywords();
    SpacedLine(st, word, x + [SPACE] + y, parseF32);
    ParseInputRangeAt(x, SPACE, y, {SPACE}, parseF32);
  }

  /** Three space-separated floats read as the triple they spell; any other text is refused. */
  lemma ParseDomainAt(x: seq<Byte>, y: seq<Byte>, z: seq<Byte>, parseF32: F32Parser)
    requires NoSpace(x) && NoSpace(y)
    ensures ParseDomain(x + [SPACE] + y + [SPACE] + z, parseF32) ==
      if parseF32(x).Some? && parseF32(y).Some? && parseF32(z).Some?
      then Some([parseF32(x).value, parseF32(y).value, parseF32(z).value])
      else None
  {
    assert x + [SPACE] + y + [SPACE] + z == x + [SPACE] + (y + [SPACE] + z);
    SplitOnceAt(x, SPACE, y + [SPACE] + z, {SPACE});
    SplitOnceAt(y, SPACE, z, {SPACE});
  }

  /**
   * `DOMAIN_MIN` / `DOMAIN_MAX`: three space-separated floats set the bound;
   * anything else is `InvalidRgb` naming the line.
   */
  lemma DomainLine(st: State, isMin: bool, x: seq<Byte>, y: seq<Byte>, z: seq<Byte>, parseF32: F32Parser)
    requires st.collector.None? && NoSpace(x) && NoSpace(y)
    ensures var line := Spaced(if isMin then KeyDomainMin else KeyDomainMax, x + [SPACE] + y + [SPACE] + z);
      Step(st, line, parseF32) ==
        if parseF32(x).Some? && parseF32(y).Some? && parseF32(z).Some? then
          var rgb := [parseF32(x).value, parseF32(y).value, parseF32(z).value];
          Next(if isMin then st.(domainMin := Some(rgb)) else st.(domainMax := Some(rgb)))
        else Halt(Returned(Err(InvalidRgb(line))))
  {
    var word := if isMin then KeyDomainMin else KeyDomainMax;
    assert KeyDomainMin != KeyDomainMax by { assert KeyDomainMin[8] != KeyDomainMax[8]; }
    DomainDirected(st, word, x + [SPACE] + y + [SPACE] + z, parseF32);
    ParseDomainAt(x, y, z, parseF32);
  }

  /**
   * While a collector is active no directive is recognised: a line whose
   * first word does not parse as a float, a directive keyword included, is
   * `InvalidRgb` naming the line.
   */
  lemma CollectingIgnoresDirectives(st: State, word: seq<Byte>, arg: seq<Byte>, parseF32: F32Parser)
    requires st.collector.Some?
    requires Plain(word) && parseF32(word).None?
    ensures Step(st, Spaced(word, arg), parseF32) == Halt(Returned(Err(InvalidRgb(Spaced(word, arg)))))
  {
    SpacedLine(st, word, arg, parseF32);
  }

  /**
   * A line taken as a data row whose words do not read as three floats (a
   * missing second or third word, or one that is not a float) is
   * `InvalidRgb` naming the line. With no collector this comes before any
   * look at the pending cubes: such a row is refused the same way whether
   * or not a cube has been declared.
   */
  lemma UnreadRowRefused(st: State, word: seq<Byte>, arg: seq<Byte>, parseF32: F32Parser)
    requires Plain(word) && (st.collector.Some? || DirectiveOf(word).None?)
    requires ParseRgb(word, arg, parseF32).None?
    ensures Step(st, Spaced(word, arg), parseF32) == Halt(Returned(Err(InvalidRgb(Spaced(word, arg)))))
  {
    SpacedLine(st, word, arg, parseF32);
  }

  /** A row of two words lacks its third float: `ParseRgb` refuses it, whatever the words. */
  lemma TwoWordsUnread(word: seq<Byte>, g: seq<Byte>, parseF32: F32Parser)
    requires NoSpace(g)
    ensures ParseRgb(word, g, parseF32).None?
  {
    assert SplitOnce(g, {SPACE}).None?;
  }

  /** `DOMAIN_MIN` / `DOMAIN_MAX` with argument `arg` goes to the domain bound it names. */
  lemma DomainDirected(st: State, word: seq<Byte>, arg: seq<Byte>, parseF32: F32Parser)
    requires st.collector.None? && (word == KeyDomainMin || word == KeyDomainMax)
    ensures Step(st, Spaced(word, arg), parseF32) == Domain(st, Spaced(word, arg), word == KeyDomainMin, arg, parseF32)
  {
    Keywords();
    var line := Spaced(word, arg);
    SpacedLine(st, word, arg, parseF32);
    var d := if word == KeyDomainMin then DomainMin else DomainMax;
    assert DirectiveOf(word) == Some(d);
    assert Directed(st, line, Some(d), word, arg, parseF32) == Setting(st, line, d, arg, parseF32);
  }

  /** `DOMAIN_MIN` / `DOMAIN_MAX` followed by a single word is `InvalidRgb` naming the line. */
  lemma OneWordDomainRefused(st: State, word: seq<Byte>, x: seq<Byte>, parseF32: F32Parser)
    requires st.collector.None? && (word == KeyDomainMin || word == KeyDomainMax)
    requires NoSpace(x)
    ensures Step(st, Spaced(word, x), parseF32) == Halt(Returned(Err(InvalidRgb(Spaced(word, x)))))
  {
    DomainDirected(st, word, x, parseF32);
    assert SplitOnce(x, {SPACE}).None?;
  }

  /** `DOMAIN_MIN` / `DOMAIN_MAX` followed by two words only is `InvalidRgb` naming the line. */
  lemma TwoWordDomainRefused(st: State, word: seq<Byte>, x: seq<Byte>, y: seq<Byte>, parseF32: F32Parser)
    requires st.collector.None? && (word == KeyDomainMin || word == KeyDomainMax)
    requires NoSpace(x) && NoSpace(y)
    ensures Step(st, Spaced(word, x + [SPACE] + y), parseF32) == Halt(Returned(Err(InvalidRgb(Spaced(word, x + [SPACE] + y)))))
  {
    DomainDirected(st, word, x + [SPACE] + y, parseF32);
    SplitOnceAt(x, SPACE, y, {SPACE});
    TwoWordsUnread(x, y, parseF32);
  }

  /**
   * An input-range directive whose argument has no second space-separated
   * word: `UnexpectedInputRange` naming the line with no pending cube,
   * otherwise `InvalidInputRange` naming the argument.
   */
  lemma UnsplitRangeRefused(st: State, word: seq<Byte>, x: seq<Byte>, parseF32: F32Parser)
    requires st.collector.None? && (word == Key1DInputRange || word == Key3DInputRange)
    requires NoSpace(x)
    ensures Step(st, Spaced(word, x), parseF32) ==
      if st.cube.None? then Halt(Returned(Err(UnexpectedInputRange(Spaced(word, x)))))
      else Halt(Returned(Err(InvalidInputRange(x))))
  {
    Keywords();
    SpacedLine(st, word, x, parseF32);
  }

  // ---------------------------------------------------------------------
  // Data rows

  /** The three words of a data row. */
  datatype RowWords = RowWords(r: seq<Byte>, g: seq<Byte>, b: seq<Byte>)

  function RowLine(w: RowWords): seq<Byte>
  {
    Spaced(w.r, w.g + [SPACE] + w.b)
  }

  /** The words of a data row read as `rgb`, and its first word is no directive. */
  predicate ReadsAs(w: RowWords, rgb: Rgb, parseF32: F32Parser)
  {
    && Plain(w.r) && NoSpace(w.g) && DirectiveOf(w.r).None?
    && parseF32(w.r) == Some(rgb[0]) && parseF32(w.g) == Some(rgb[1]) && parseF32(w.b) == Some(rgb[2])
  }

  /** A data row is pushed into the active collector, or else opens one. */
  lemma RowStep(st: State, w: RowWords, rgb: Rgb, parseF32: F32Parser)
    requires ReadsAs(w, rgb, parseF32)
    ensures Step(st, RowLine(w), parseF32) ==
      if st.collector.Some? then PushRow(st, rgb) else OpenFirst(st, rgb)
  {
    var line, rest := RowLine(w), w.g + [SPACE] + w.b;
    SpacedLine(st, w.r, rest, parseF32);
    ParseRgbAt(w, rgb, parseF32);
    if st.collector.Some? {
      assert CollectRow(st, line, w.r, rest, parseF32) == PushRow(st, rgb);
    } else {
      assert HeaderLine(st, line, w.r, rest, parseF32) == FirstRow(st, line, w.r, rest, parseF32);
      assert FirstRow(st, line, w.r, rest, parseF32) == OpenFirst(st, rgb);
    }
  }

  lemma ParseRgbAt(w: RowWords, rgb: Rgb, parseF32: F32Parser)
    requires ReadsAs(w, rgb, parseF32)
    ensures ParseRgb(w.r, w.g + [SPACE] + w.b, parseF32) == Some(rgb)
  {
    SplitOnceAt(w.g, SPACE, w.b, {SPACE});
    assert [rgb[0], rgb[1], rgb[2]] == rgb;
  }

  /**
   * A row `x y z` reads as the triple its words spell when all three parse,
   * and is refused otherwise: `1.0 abc 2.0` is not a row.
   */
  lemma ParseRgbWords(x: seq<Byte>, y: seq<Byte>, z: seq<Byte>, parseF32: F32Parser)
    requires NoSpace(y)
    ensures ParseRgb(x, y + [SPACE] + z, parseF32) ==
      if parseF32(x).Some? && parseF32(y).Some? && parseF32(z).Some?
      then Some([parseF32(x).value, parseF32(y).value, parseF32(z).value])
      else None
  {
    SplitOnceAt(y, SPACE, z, {SPACE});
  }

  /** The cube the next data row opens a collector on: the pending shaper, else the pending cube. */
  function Picked(st: State): (c: Option<CubeValue>)
    ensures c.None? <==> st.shaper.None? && st.cube.None?
  {
    if st.shaper.Some? then st.shaper else st.cube
  }

  /** The state with the picked cube taken out of its slot. */
  function Unpicked(st: State): (rest: State)
    ensures rest.shaper.None? && (st.shaper.None? ==> rest.cube.None?)
    ensures st.shaper.Some? ==> rest.cube == st.cube
    ensures rest.collector == st.collector && rest.comments == st.comments
  {
    if st.shaper.Some? then st.(shaper := None) else st.(cube := None)
  }

  /**
   * The first data row outside a collector opens one on the pending shaper,
   * else on the pending cube, and writes itself into the first triple of its
   * buffer; with neither pending it is `UnexpectedData`. An empty buffer
   * panics, and a buffer of a single triple is completed by this push and
   * then dropped: the collector keeps no cube.
   */
  lemma FirstRowOpens(st: State, w: RowWords, rgb: Rgb, parseF32: F32Parser)
    requires st.collector.None? && ReadsAs(w, rgb, parseF32)
    ensures Step(st, RowLine(w), parseF32) ==
        if Picked(st).None? then Halt(Returned(Err(UnexpectedData)))
        else if |Picked(st).value.rgbs| < 3 then Halt(Panicked)
        else
          var c := Picked(st).value;
          var n := |c.rgbs|;
          Next(Unpicked(st).(collector := Some(CollectorValue(
            if n == 3 then None else Some(c.(rgbs := rgb + c.rgbs[3..])), 3, n))))
  {
    RowStep(st, w, rgb, parseF32);
    if Picked(st).Some? {
      assert OpenFirst(st, rgb) == OpenCollector(Unpicked(st), Picked(st).value, rgb);
      CollectorOpened(Unpicked(st), Picked(st).value, rgb);
    }
  }

  /** Opening a collector on `c` writes the row into its first triple. */
  lemma CollectorOpened(st: State, c: CubeValue, rgb: Rgb)
    ensures OpenCollector(st, c, rgb) ==
      if |c.rgbs| < 3 then Halt(Panicked)
      else
        var n := |c.rgbs|;
        Next(st.(collector := Some(CollectorValue(if n == 3 then None else Some(c.(rgbs := rgb + c.rgbs[3..])), 3, n))))
  {
    if |c.rgbs| >= 3 {
      assert c.rgbs[..0] + rgb == rgb;
    }
  }

  function RowLines(ws: seq<RowWords>): (lines: seq<seq<Byte>>)
    ensures |lines| == |ws|
  {
    if ws == [] then [] else [RowLine(ws[0])] + RowLines(ws[1..])
  }

  /** Row `i` of the lines reads as `ts[i]`. */
  predicate ReadAll(ws: seq<RowWords>, ts: seq<Rgb>, parseF32: F32Parser)
  {
    |ws| == |ts| && forall i :: 0 <= i < |ws| ==> ReadsAs(ws[i], ts[i], parseF32)
  }

  lemma ReadAllTail(ws: seq<RowWords>, ts: seq<Rgb>, parseF32: F32Parser)
    requires ReadAll(ws, ts, parseF32) && ws != []
    ensures ReadAll(ws[1..], ts[1..], parseF32)
  {
    forall i | 0 <= i < |ws| - 1
      ensures ReadsAs(ws[1..][i], ts[1..][i], parseF32)
    {
      assert ws[1..][i] == ws[i + 1] && ts[1..][i] == ts[i + 1];
    }
  }

  /** The collector buffer state after writing the triples `ts` at its cursor. */
  function WrittenRows(k: CollectorValue, ts: seq<Rgb>): (after: CollectorValue)
    requires k.cube.Some? && k.len + 3 * |ts| <= |k.cube.value.rgbs|
    ensures after.cube.Some? && |after.cube.value.rgbs| == |k.cube.value.rgbs|
    ensures after.len == k.len + 3 * |ts| && after.capacity == k.capacity
    ensures after.cube.value.rgbs[..k.len] == k.cube.value.rgbs[..k.len]
    ensures after.cube.value.rgbs[k.len..after.len] == Flatten(ts)
    ensures after.cube.value.rgbs[after.len..] == k.cube.value.rgbs[after.len..]
  {
    var c := k.cube.value;
    var end := k.len + 3 * |ts|;
    var rgbs := c.rgbs[..k.len] + Flatten(ts) + c.rgbs[end..];
    assert rgbs[..k.len] == c.rgbs[..k.len];
    assert rgbs[k.len..end] == Flatten(ts);
    assert rgbs[end..] == c.rgbs[end..];
    CollectorValue(Some(c.(rgbs := rgbs)), end, k.capacity)
  }

  /** Writing the first triple and then the rest is writing them all. */
  lemma WrittenRowsHead(k: CollectorValue, ts: seq<Rgb>)
    requires k.cube.Some? && ts != [] && k.len + 3 * |ts| <= |k.cube.value.rgbs|
    ensures var c := k.cube.value;
      var first := CollectorValue(Some(c.(rgbs := c.rgbs[..k.len] + ts[0] + c.rgbs[k.len + 3..])), k.len + 3, k.capacity);
      WrittenRows(first, ts[1..]) == WrittenRows(k, ts)
  {
    var c := k.cube.value;
    var end := k.len + 3 * |ts|;
    var w := c.rgbs[..k.len] + ts[0] + c.rgbs[k.len + 3..];
    assert Flatten(ts) == ts[0] + Flatten(ts[1..]);
    assert w[..k.len + 3] == c.rgbs[..k.len] + ts[0];
    assert w[end..] == c.rgbs[end..];
    assert w[..k.len + 3] + Flatten(ts[1..]) + w[end..] == c.rgbs[..k.len] + Flatten(ts) + c.rgbs[end..];
  }

  /**
   * Rows that do not reach the end of the active collector's buffer are
   * written into it one triple after another from the cursor on, and
   * the parse carries on with the cursor past them.
   */
  lemma {:induction false} PartialRows(st: State, ws: seq<RowWords>, ts: seq<Rgb>, parseF32: F32Parser)
    requires ReadAll(ws, ts, parseF32)
    requires st.collector.Some? && st.collector.value.cube.Some?
    requires st.collector.value.capacity == |st.collector.value.cube.value.rgbs|
    requires st.collector.value.len + 3 * |ts| < st.collector.value.capacity
    ensures Feed(st, RowLines(ws), parseF32) ==
      Next(st.(collector := Some(WrittenRows(st.collector.value, ts))))
    decreases |ts|
  {
    var k := st.collector.value;
    var c := k.cube.value;
    if ts == [] {
      assert c.rgbs[..k.len] + [] + c.rgbs[k.len..] == c.rgbs;
      assert WrittenRows(k, ts) == k;
    } else {
      var w := c.rgbs[..k.len] + ts[0] + c.rgbs[k.len + 3..];
      var k' := CollectorValue(Some(c.(rgbs := w)), k.len + 3, k.capacity);
      var st' := st.(collector := Some(k'));
      RowStep(st, ws[0], ts[0], parseF32);
      assert Step(st, RowLine(ws[0]), parseF32) == Next(st');
      Advance(st, RowLines(ws), parseF32);
      assert RowLines(ws)[1..] == RowLines(ws[1..]);
      ReadAllTail(ws, ts, parseF32);
      PartialRows(st', ws[1..], ts[1..], parseF32);
      WrittenRowsHead(k, ts);
    }
  }

  /** The cube of a collector whose buffer the triples `ts` fill from its cursor on. */
  function FilledCube(k: CollectorValue, ts: seq<Rgb>): (c: CubeValue)
    requires k.cube.Some? && k.len + 3 * |ts| == |k.cube.value.rgbs|
    ensures c.dim == k.cube.value.dim && c.size == k.cube.value.size
    ensures c.inputRange == k.cube.value.inputRange
    ensures |c.rgbs| == |k.cube.value.rgbs|
    ensures c.rgbs[..k.len] == k.cube.value.rgbs[..k.len] && c.rgbs[k.len..] == Flatten(ts)
  {
    var c := k.cube.value;
    var rgbs := c.rgbs[..k.len] + Flatten(ts);
    assert rgbs[..k.len] == c.rgbs[..k.len] && rgbs[k.len..] == Flatten(ts);
    c.(rgbs := rgbs)
  }

  /** Writing the first of two or more triples and then the rest fills the same cube. */
  lemma FilledCubeHead(k: CollectorValue, ts: seq<Rgb>)
    requires k.cube.Some? && ts != [] && k.len + 3 * |ts| == |k.cube.value.rgbs|
    ensures var c := k.cube.value;
      var w := c.rgbs[..k.len] + ts[0] + c.rgbs[k.len + 3..];
      && (|ts| == 1 ==> c.(rgbs := w) == FilledCube(k, ts))
      && FilledCube(CollectorValue(Some(c.(rgbs := w)), k.len + 3, k.capacity), ts[1..]) == FilledCube(k, ts)
  {
    var c := k.cube.value;
    var w := c.rgbs[..k.len] + ts[0] + c.rgbs[k.len + 3..];
    assert Flatten(ts) == ts[0] + Flatten(ts[1..]);
    assert w[..k.len + 3] == c.rgbs[..k.len] + ts[0];
    assert w[..k.len + 3] + Flatten(ts[1..]) == c.rgbs[..k.len] + Flatten(ts);
    if |ts| == 1 {
      assert Flatten(ts[1..]) == [];
      assert w == c.rgbs[..k.len] + Flatten(ts);
    }
  }

  /**
   * Rows that reach the end of the active collector's buffer exactly fill
   * it: the cube, its buffer holding the rows in order from the cursor on,
   * is then completed.
   */
  lemma {:induction false} FillingRows(st: State, ws: seq<RowWords>, ts: seq<Rgb>, parseF32: F32Parser)
    requires ReadAll(ws, ts, parseF32) && ts != []
    requires st.collector.Some? && st.collector.value.cube.Some?
    requires st.collector.value.capacity == |st.collector.value.cube.value.rgbs|
    requires st.collector.value.len + 3 * |ts| == st.collector.value.capacity
    ensures Feed(st, RowLines(ws), parseF32) == Completed(st, FilledCube(st.collector.value, ts))
    decreases |ts|
  {
    var k := st.collector.value;
    var c := k.cube.value;
    var w := c.rgbs[..k.len] + ts[0] + c.rgbs[k.len + 3..];
    RowStep(st, ws[0], ts[0], parseF32);
    FilledCubeHead(k, ts);
    if |ts| == 1 {
      assert Step(st, RowLine(ws[0]), parseF32) == Completed(st, c.(rgbs := w));
    } else {
      var k' := CollectorValue(Some(c.(rgbs := w)), k.len + 3, k.capacity);
      var st' := st.(collector := Some(k'));
      assert Step(st, RowLine(ws[0]), parseF32) == Next(st');
      Advance(st, RowLines(ws), parseF32);
      assert RowLines(ws)[1..] == RowLines(ws[1..]);
      ReadAllTail(ws, ts, parseF32);
      FillingRows(st', ws[1..], ts[1..], parseF32);
      assert Completed(st', FilledCube(k, ts)) == Completed(st, FilledCube(k, ts));
    }
  }

  /** Filling a cube's whole buffer, the first triple written on its own. */
  lemma FilledFromStart(c: CubeValue, ts: seq<Rgb>)
    requires ts != [] && 3 * |ts| == |c.rgbs|
    ensures var k := CollectorValue(Some(c.(rgbs := ts[0] + c.rgbs[3..])), 3, |c.rgbs|);
      |ts| >= 2 ==> FilledCube(k, ts[1..]) == c.(rgbs := Flatten(ts))
  {
    var k0 := CollectorValue(Some(c), 0, |c.rgbs|);
    assert c.rgbs[..0] + ts[0] + c.rgbs[3..] == ts[0] + c.rgbs[3..];
    FilledCubeHead(k0, ts);
    assert c.rgbs[..0] + Flatten(ts) == Flatten(ts);
  }

  /**
   * Rows that exactly fill the cube the first of them opens a collector on
   * (the pending shaper, else the pending cube) complete that cube holding
   * all of them in order.
   */
  lemma FillFirst(st: State, ws: seq<RowWords>, ts: seq<Rgb>, parseF32: F32Parser)
    requires ReadAll(ws, ts, parseF32) && |ts| >= 2
    requires st.collector.None? && Picked(st).Some? && 3 * |ts| == |Picked(st).value.rgbs|
    ensures Feed(st, RowLines(ws), parseF32) == Completed(Unpicked(st), Picked(st).value.(rgbs := Flatten(ts)))
  {
    var c := Picked(st).value;
    var k := CollectorValue(Some(c.(rgbs := ts[0] + c.rgbs[3..])), 3, |c.rgbs|);
    var st' := Unpicked(st).(collector := Some(k));
    FirstRowOpens(st, ws[0], ts[0], parseF32);
    assert Step(st, RowLine(ws[0]), parseF32) == Next(st');
    Advance(st, RowLines(ws), parseF32);
    assert RowLines(ws)[1..] == RowLines(ws[1..]);
    ReadAllTail(ws, ts, parseF32);
    FillingRows(st', ws[1..], ts[1..], parseF32);
    FilledFromStart(c, ts);
    var done := c.(rgbs := Flatten(ts));
    assert Completed(st', done) == Completed(Unpicked(st), done);
  }
}

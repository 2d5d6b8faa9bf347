/** `Collector`: a write cursor that fills a cube's buffer one RGB triple at a time. */
module Collecting {
  import opened Wrappers
  import opened Errors
  import opened Cubes

  /** The value held by a `Collector` at one moment. */
  datatype CollectorValue = CollectorValue(cube: Option<CubeValue>, len: nat, capacity: nat)

  /** The collector `with_cube(c)` builds: nothing written yet, room for the whole buffer. */
  function Started(c: CubeValue): CollectorValue
  {
    CollectorValue(Some(c), 0, |c.rgbs|)
  }

  /**
   * The collector invariant: the cursor moves in whole triples; while the
   * collector holds its cube the cursor is strictly inside the buffer (or the
   * buffer is empty), and once the cube has been handed back it sits at the end.
   */
  predicate Filling(k: CollectorValue)
  {
    && k.len % 3 == 0
    && k.capacity % 3 == 0
    && k.len <= k.capacity
    && match k.cube
       case None => k.len == k.capacity
       case Some(c) => WellShaped(c) && |c.rgbs| == k.capacity && (k.len < k.capacity || k.capacity == 0)
  }

  /** A push that wrote its triple without completing the cube. */
  const NotYet: Outcome<Option<CubeValue>> := Returned(Ok(None))

  /** A push refused because the cube has already been handed back. */
  const Refused: Outcome<Option<CubeValue>> := Returned(Err(CubeIsFull))

  /** What one `push` returns, and the collector after it. */
  datatype Pushed = Pushed(outcome: Outcome<Option<CubeValue>>, after: CollectorValue)

  /**
   * `Collector::push`: `CubeIsFull` once the cube has been handed back; a
   * panic when the window `len..len + 3` runs past the buffer; otherwise the
   * triple is copied into the window, the cursor advances by 3, and the cube
   * is handed back when the cursor reaches the capacity.
   */
  function PushStep(k: CollectorValue, rgb: Rgb): (r: Pushed)
    ensures r.after.capacity == k.capacity
    ensures r.after.cube.Some? ==> k.cube.Some?
    ensures r.outcome.Returned? && r.outcome.result.Ok? <==> r.after.len == k.len + 3
    ensures !(r.outcome.Returned? && r.outcome.result.Ok?) ==> r.after == k
    ensures r.outcome.Returned? && r.outcome.result.Err? <==> k.cube.None?
    ensures r.outcome.Returned? && r.outcome.result.Err? ==> r.outcome.result.error == CubeIsFull
  {
    match k.cube
    case None => Pushed(Returned(Err(CubeIsFull)), k)
    case Some(c) =>
      var next := k.len + 3;
      if next > |c.rgbs| then Pushed(Panicked, k)
      else
        var written := c.(rgbs := c.rgbs[..k.len] + rgb + c.rgbs[next..]);
        if next == k.capacity then Pushed(Returned(Ok(Some(written))), CollectorValue(None, next, k.capacity))
        else Pushed(Returned(Ok(None)), CollectorValue(Some(written), next, k.capacity))
  }

  /** A fresh collector over a constructed cube satisfies the invariant. */
  lemma StartedFilling(c: CubeValue)
    requires WellShaped(c)
    ensures Filling(Started(c))
  {
    WholeTriples(c);
  }

  /**
   * Under the invariant, a push panics exactly when the collector holds an
   * empty buffer, and a push that does not panic keeps the invariant.
   */
  lemma PushKeepsFilling(k: CollectorValue, rgb: Rgb)
    requires Filling(k)
    ensures PushStep(k, rgb).outcome.Panicked? <==> k.cube.Some? && k.capacity == 0
    ensures !PushStep(k, rgb).outcome.Panicked? ==> Filling(PushStep(k, rgb).after)
  {
    if k.cube.Some? && k.len + 3 <= |k.cube.value.rgbs| {
      var c := k.cube.value;
      var written := c.(rgbs := c.rgbs[..k.len] + rgb + c.rgbs[k.len + 3..]);
      assert |written.rgbs| == |c.rgbs|;
      assert WellShaped(written);
    }
  }

  /** Once the cube has been handed back, every push fails with `CubeIsFull` and changes nothing. */
  lemma FullCollectorRefuses(k: CollectorValue, rgb: Rgb)
    requires k.cube.None?
    ensures PushStep(k, rgb) == Pushed(Returned(Err(CubeIsFull)), k)
  {
  }

  /** The cube a successful push wrote into: handed back, or still held. */
  function WrittenCube(p: Pushed): Option<CubeValue>
  {
    if p.outcome.Returned? && p.outcome.result.Ok? && p.outcome.result.value.Some?
    then p.outcome.result.value else p.after.cube
  }

  /**
   * A push with room for its window writes the triple into
   * `rgbs[len..len + 3]`, leaves every other slot and the shape alone,
   * advances the cursor by 3, keeps the capacity, and hands the cube back
   * exactly when the cursor reaches the capacity.
   */
  lemma PushWritesWindow(k: CollectorValue, rgb: Rgb)
    requires k.cube.Some? && k.len + 3 <= |k.cube.value.rgbs|
    ensures var p := PushStep(k, rgb);
      && p.outcome.Returned? && p.outcome.result.Ok?
      && p.after.len == k.len + 3 && p.after.capacity == k.capacity
      && (p.outcome.result.value.Some? <==> k.len + 3 == k.capacity)
      && (p.after.cube.None? <==> k.len + 3 == k.capacity)
      && WrittenCube(p).Some?
      && var c, w := k.cube.value, WrittenCube(p).value;
      && w.dim == c.dim && w.size == c.size && w.inputRange == c.inputRange
      && |w.rgbs| == |c.rgbs|
      && w.rgbs[k.len..k.len + 3] == rgb
      && forall j :: 0 <= j < |c.rgbs| && !(k.len <= j < k.len + 3) ==> w.rgbs[j] == c.rgbs[j]
  {
    var c := k.cube.value;
    var w := c.rgbs[..k.len] + rgb + c.rgbs[k.len + 3..];
    assert w[k.len..k.len + 3] == rgb;
    forall j | 0 <= j < |c.rgbs| && !(k.len <= j < k.len + 3)
      ensures w[j] == c.rgbs[j]
    {
      if j < k.len {
        assert w[j] == c.rgbs[..k.len][j];
      } else {
        assert w[j] == c.rgbs[k.len + 3..][j - k.len - 3];
      }
    }
  }

  /** The rows laid end to end, as they sit in a buffer. */
  function Flatten(ts: seq<Rgb>): (s: seq<F32>)
    ensures |s| == 3 * |ts|
  {
    if ts == [] then [] else ts[0] + Flatten(ts[1..])
  }

  /** Row `i` of `ts` occupies `Flatten(ts)[3i..3i + 3]`. */
  lemma {:induction false} FlattenAt(ts: seq<Rgb>, i: nat)
    requires i < |ts|
    ensures Flatten(ts)[3 * i..3 * i + 3] == ts[i]
  {
    if i > 0 {
      FlattenAt(ts[1..], i - 1);
      assert Flatten(ts) == ts[0] + Flatten(ts[1..]);
      assert Flatten(ts)[3 * i..3 * i + 3] == Flatten(ts[1..])[3 * (i - 1)..3 * (i - 1) + 3];
    }
  }

  /** Outcomes of pushing the rows of `ts` one after another, and the collector at the end. */
  function PushAll(k: CollectorValue, ts: seq<Rgb>): (seq<Outcome<Option<CubeValue>>>, CollectorValue)
    decreases |ts|
  {
    if ts == [] then ([], k)
    else
      var p := PushStep(k, ts[0]);
      var rest := PushAll(p.after, ts[1..]);
      ([p.outcome] + rest.0, rest.1)
  }

  function Repeat<T>(x: T, n: nat): (s: seq<T>)
    ensures |s| == n && forall k :: 0 <= k < n ==> s[k] == x
  {
    seq(n, _ => x)
  }

  /**
   * Pushing exactly the rows that fill the rest of the buffer: every push
   * but the last reports "not yet", the last hands back the cube whose
   * unwritten part now holds the rows in order, and the collector is left
   * empty with its cursor at the capacity.
   */
  lemma {:induction false} FillsOnLastPush(k: CollectorValue, ts: seq<Rgb>)
    requires k.cube.Some? && k.capacity == |k.cube.value.rgbs|
    requires |ts| > 0 && k.len + 3 * |ts| == k.capacity
    ensures PushAll(k, ts) ==
      (Repeat(NotYet, |ts| - 1)
         + [Returned(Ok(Some(k.cube.value.(rgbs := k.cube.value.rgbs[..k.len] + Flatten(ts)))))],
       CollectorValue(None, k.capacity, k.capacity))
    decreases |ts|
  {
    var c := k.cube.value;
    var p := PushStep(k, ts[0]);
    var w := c.rgbs[..k.len] + ts[0] + c.rgbs[k.len + 3..];
    var last: Outcome<Option<CubeValue>> := Returned(Ok(Some(c.(rgbs := c.rgbs[..k.len] + Flatten(ts)))));
    var rest := PushAll(p.after, ts[1..]);
    assert Flatten(ts) == ts[0] + Flatten(ts[1..]);
    if |ts| == 1 {
      assert c.rgbs[k.len + 3..] == [] && ts[1..] == [];
      assert w == c.rgbs[..k.len] + Flatten(ts);
      assert p.outcome == Returned(Ok(Some(c.(rgbs := w))));
      assert p.outcome == last;
      assert rest == ([], CollectorValue(None, k.capacity, k.capacity));
      assert Repeat(NotYet, |ts| - 1) + [last] == [p.outcome] + rest.0;
    } else {
      assert p == Pushed(NotYet, CollectorValue(Some(c.(rgbs := w)), k.len + 3, k.capacity));
      FillsOnLastPush(p.after, ts[1..]);
      assert w[..k.len + 3] + Flatten(ts[1..]) == c.rgbs[..k.len] + Flatten(ts) by {
        assert w[..k.len + 3] == c.rgbs[..k.len] + ts[0];
      }
      assert rest == (Repeat(NotYet, |ts| - 2) + [last], CollectorValue(None, k.capacity, k.capacity));
      assert [NotYet] + Repeat(NotYet, |ts| - 2) == Repeat(NotYet, |ts| - 1);
      assert Repeat(NotYet, |ts| - 1) + [last] == [p.outcome] + rest.0;
    }
    assert PushAll(k, ts) == ([p.outcome] + rest.0, rest.1);
  }

  /** A collector that has handed its cube back refuses every later push and stays as it is. */
  lemma {:induction false} StaysFull(k: CollectorValue, ts: seq<Rgb>)
    requires k.cube.None?
    ensures PushAll(k, ts) == (Repeat(Refused, |ts|), k)
    decreases |ts|
  {
    if ts != [] {
      StaysFull(k, ts[1..]);
      assert [Refused] + Repeat(Refused, |ts| - 1)
          == Repeat(Refused, |ts|);
    }
  }

  /** `Collector`: it owns its cube until the last push hands it back. */
  class Collector {
    var cube: Cube?
    var len: nat
    const capacity: nat

    ghost function Value(): CollectorValue
      reads this, if cube == null then {} else {cube, cube.rgbs}
    {
      CollectorValue(if cube == null then None else Some(cube.Value()), len, capacity)
    }

    ghost predicate Valid()
      reads this, if cube == null then {} else {cube, cube.rgbs}
    {
      Filling(Value())
    }

    /** `Collector::with_cube`: takes the cube, with the buffer length as capacity. */
    constructor WithCube(cube: Cube)
      ensures this.cube == cube
      ensures Value() == Started(cube.Value())
      ensures cube.Valid() ==> Valid()
    {
      this.cube := cube;
      this.len := 0;
      this.capacity := cube.RLen();
      new;
      if cube.Valid() {
        StartedFilling(cube.Value());
      }
    }

    /**
     * `Collector::push`; a completed cube is handed back as the very object
     * that was collected into. Under the collector invariant only an empty
     * buffer panics, and any other push keeps the invariant.
     */
    method Push(rgb: Rgb) returns (r: Outcome<Option<Cube>>)
      modifies this, if cube == null then {} else {cube.rgbs}
      ensures Pushed(PushedView(r), Value()) == PushStep(old(Value()), rgb)
      ensures r.Returned? && r.result.Ok? && r.result.value.Some? ==> r.result.value.value == old(cube)
      ensures cube == null || cube == old(cube)
      ensures old(Valid()) ==> (r.Panicked? <==> old(cube) != null && capacity == 0)
      ensures old(Valid()) && !r.Panicked? ==> Valid()
    {
      if Valid() {
        PushKeepsFilling(Value(), rgb);
      }
      if cube == null {
        return Returned(Err(CubeIsFull));
      }
      var c := cube;
      var next := len + 3;
      if next > c.rgbs.Length {
        // the slice `rgbs[len..next]` is out of bounds
        return Panicked;
      }
      ghost var before := c.rgbs[..];
      c.rgbs[len], c.rgbs[len + 1], c.rgbs[len + 2] := rgb[0], rgb[1], rgb[2];
      assert c.rgbs[..] == before[..len] + rgb + before[next..];
      len := next;
      if next == capacity {
        cube := null;
        return Returned(Ok(Some(c)));
      }
      return Returned(Ok(None));
    }
  }

  /** What a push reports, with a handed-back cube read as its value. */
  ghost function PushedView(r: Outcome<Option<Cube>>): Outcome<Option<CubeValue>>
    reads if r.Returned? && r.result.Ok? && r.result.value.Some?
          then {r.result.value.value, r.result.value.value.rgbs} else {}
  {
    match r
    case Panicked => Panicked
    case Returned(Err(e)) => Returned(Err(e))
    case Returned(Ok(None)) => Returned(Ok(None))
    case Returned(Ok(Some(c))) => Returned(Ok(Some(c.Value())))
  }
}

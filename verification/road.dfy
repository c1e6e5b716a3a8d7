/** The scrolling road (src/components/Road.tsx): a window of seven
    100-unit chunks centred on the chunk holding the player, replaced only
    when it differs from the current set, and the neon grid drawn over each
    chunk. Chunk positions are integers (multiples of 100). */
module Road {
  import opened Maths
  import opened Seqs

  const ChunkLength: int := 100
  const BufferChunks: int := 3
  const GridHalfWidth: int := 20
  const GridSpacing: int := 2

  const InitialChunks: seq<int> := [-100, 0, 100]

  /** `Math.floor(carZ / 100) * 100`, the source's "current chunk centre":
      the multiple of 100 at or below the car. */
  function ChunkCentre(carZ: real): (c: int)
    ensures c % ChunkLength == 0
    ensures c as real <= carZ < c as real + ChunkLength as real
  {
    Floor(carZ / ChunkLength as real) * ChunkLength
  }

  /** The seven chunk positions centre - 300, ..., centre + 300. */
  function Window(centre: int): (w: seq<int>)
    ensures |w| == 2 * BufferChunks + 1
    ensures forall i :: 0 <= i < |w| ==> w[i] == centre + (i - BufferChunks) * ChunkLength
  {
    seq(2 * BufferChunks + 1, i requires 0 <= i < 2 * BufferChunks + 1 => centre + (i - BufferChunks) * ChunkLength)
  }

  /** One frame's state update: with no car position nothing happens;
      otherwise the window is rebuilt and replaces the current chunks only
      when the two differ as multisets (the source compares the sorted
      lists). */
  function Step(prev: seq<int>, carZ: Option<real>): (r: seq<int>)
    ensures carZ.None? ==> r == prev
    ensures carZ.Some? ==> multiset(r) == multiset(Window(ChunkCentre(carZ.value)))
    ensures r == prev || r == Window(ChunkCentre(carZ.value))
  {
    match carZ
    case None => prev
    case Some(z) =>
      var w := Window(ChunkCentre(z));
      if multiset(w) != multiset(prev) then w else prev
  }

  /** The state is replaced exactly when the chunk set changes, so a car that
      stays within one chunk causes no re-render after the first frame. */
  lemma StepReplacesOnlyOnChange(prev: seq<int>, carZ: real)
    ensures Step(prev, Some(carZ)) == prev <==> multiset(prev) == multiset(Window(ChunkCentre(carZ)))
    ensures Step(Step(prev, Some(carZ)), Some(carZ)) == Step(prev, Some(carZ))
  {
  }

  /** Each chunk's road surface spans 50 units either side of its position;
      together the window covers at least 250 units ahead of and behind the
      car. */
  lemma WindowCovers(carZ: real, z: real)
    requires carZ - 250.0 <= z <= carZ + 250.0
    ensures exists i :: 0 <= i < 2 * BufferChunks + 1
              && Window(ChunkCentre(carZ))[i] as real - 50.0 <= z <= Window(ChunkCentre(carZ))[i] as real + 50.0
  {
    var c := ChunkCentre(carZ);
    var w := Window(c);
    var k := Floor((z - c as real + 350.0) / 100.0);
    assert 0 <= k <= 6;
    assert w[k] as real - 50.0 <= z <= w[k] as real + 50.0;
  }

  /** A grid line over one chunk: a lengthwise line at x, or a crosswise
      line at z. */
  datatype GridLine = Lengthwise(x: int, chunkZ: int) | Crosswise(z: int)

  /** The lengthwise lines: x = -20, -18, ..., 20. */
  method LengthwiseLines(chunkZ: int) returns (lines: seq<GridLine>)
    ensures |lines| == 21
    ensures forall k :: 0 <= k < |lines| ==> lines[k] == Lengthwise(-GridHalfWidth + GridSpacing * k, chunkZ)
  {
    lines := [];
    var i := -GridHalfWidth;
    while i <= GridHalfWidth
      invariant -GridHalfWidth <= i <= GridHalfWidth + GridSpacing
      invariant (i + GridHalfWidth) % GridSpacing == 0
      invariant |lines| == (i + GridHalfWidth) / GridSpacing
      invariant forall k :: 0 <= k < |lines| ==> lines[k] == Lengthwise(-GridHalfWidth + GridSpacing * k, chunkZ)
    {
      lines := lines + [Lengthwise(i, chunkZ)];
      i := i + GridSpacing;
    }
  }

  /** The crosswise lines: every 2 units from chunkZ - 50 to chunkZ + 50
      inclusive. */
  method CrosswiseLines(chunkZ: int) returns (lines: seq<GridLine>)
    ensures |lines| == 51
    ensures forall k :: 0 <= k < |lines| ==> lines[k] == Crosswise(chunkZ - ChunkLength / 2 + GridSpacing * k)
    ensures forall k :: 0 <= k < |lines| ==> chunkZ - 50 <= lines[k].z <= chunkZ + 50
  {
    lines := [];
    var i := chunkZ - ChunkLength / 2;
    while i <= chunkZ + ChunkLength / 2
      invariant chunkZ - ChunkLength / 2 <= i <= chunkZ + ChunkLength / 2 + GridSpacing
      invariant (i - (chunkZ - ChunkLength / 2)) % GridSpacing == 0
      invariant |lines| == (i - (chunkZ - ChunkLength / 2)) / GridSpacing
      invariant forall k :: 0 <= k < |lines| ==> lines[k] == Crosswise(chunkZ - ChunkLength / 2 + GridSpacing * k)
    {
      lines := lines + [Crosswise(i)];
      i := i + GridSpacing;
    }
  }

  /** The 72 lines over one chunk: 21 lengthwise, then 51 crosswise. */
  function Grid(chunkZ: int): (g: seq<GridLine>)
    ensures |g| == 72
  {
    seq(72, k requires 0 <= k < 72 =>
      if k < 21 then Lengthwise(-GridHalfWidth + GridSpacing * k, chunkZ)
      else Crosswise(chunkZ - ChunkLength / 2 + GridSpacing * (k - 21)))
  }

  /** createGridLines: the lengthwise lines, then the crosswise ones. */
  method GridLines(chunkZ: int) returns (lines: seq<GridLine>)
    ensures lines == Grid(chunkZ)
  {
    var a := LengthwiseLines(chunkZ);
    var b := CrosswiseLines(chunkZ);
    lines := a + b;
  }

  /** The grid of every chunk, in chunk order (the `flatMap`): chunk j owns
      lines 72 j to 72 j + 71. */
  method AllGridLines(chunks: seq<int>) returns (lines: seq<GridLine>)
    ensures |lines| == 72 * |chunks|
    ensures forall j :: 0 <= j < |chunks| ==> lines[72 * j..72 * j + 72] == Grid(chunks[j])
  {
    lines := [];
    var j := 0;
    while j < |chunks|
      invariant 0 <= j <= |chunks| && |lines| == 72 * j
      invariant forall j' :: 0 <= j' < j ==> lines[72 * j'..72 * j' + 72] == Grid(chunks[j'])
    {
      var g := GridLines(chunks[j]);
      assert forall j' :: 0 <= j' < j ==> (lines + g)[72 * j'..72 * j' + 72] == lines[72 * j'..72 * j' + 72];
      lines := lines + g;
      j := j + 1;
    }
  }
}

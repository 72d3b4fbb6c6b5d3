/** The two pure helpers of the front end (emulator/src/lib.rs): the palette
    and the copy of the 32x32 video window of memory into an RGBA frame. */
module Screen {
  import opened Results
  import opened Words
  import opened Memory

  datatype Rgb = Rgb(r: u8, g: u8, b: u8)

  /** `color`: the palette, nine colours over all 256 byte values.  Bytes 2..7 and 9..14 name the same
      six colours; 8 and everything from 15 up are cyan. */
  function Color(byte: u8): (c: Rgb)
    ensures byte == 0 ==> c == Rgb(0, 0, 0)
    ensures byte == 1 ==> c == Rgb(255, 255, 255)
    ensures (byte == 8 || byte >= 15) ==> c == Rgb(0, 255, 255)
    ensures c.r in {0, 128, 255} && c.g in {0, 128, 255} && c.b in {0, 128, 255}
  {
    match byte
    case 0 => Rgb(0, 0, 0)
    case 1 => Rgb(255, 255, 255)
    case 2 | 9 => Rgb(128, 128, 128)
    case 3 | 10 => Rgb(255, 0, 0)
    case 4 | 11 => Rgb(0, 255, 0)
    case 5 | 12 => Rgb(0, 0, 255)
    case 6 | 13 => Rgb(255, 0, 255)
    case 7 | 14 => Rgb(255, 255, 0)
    case _ => Rgb(0, 255, 255)
  }

  /** The palette repeats with period 7 between 2 and 14. */
  lemma ColorRepeats(b: u8)
    requires 2 <= b <= 7
    ensures Color(b) == Color(b + 7)
  {
  }

  /** The six colours of 2..7 are pairwise different, and different from
      black, white and cyan: the palette has exactly nine colours. */
  lemma ColorsDistinct(a: u8, b: u8)
    requires a <= 8 && b <= 8 && a != b
    ensures Color(a) != Color(b)
  {
  }

  const Pixels: nat := 32 * 32
  const FrameSize: nat := 4 * Pixels
  /** First byte of the video window: pixel k is memory cell 0x200 + k. */
  const ScreenStart: nat := 0x200

  /** `[u8; 32 * 4 * 32]`: four bytes per pixel, RGBA. */
  type Frame = f: seq<u8> | |f| == FrameSize witness seq(FrameSize, _ => 0)

  function Red(f: Frame, k: nat): u8 requires k < Pixels { f[4 * k] }
  function Green(f: Frame, k: nat): u8 requires k < Pixels { f[4 * k + 1] }
  function Blue(f: Frame, k: nat): u8 requires k < Pixels { f[4 * k + 2] }
  function Alpha(f: Frame, k: nat): u8 requires k < Pixels { f[4 * k + 3] }

  function PixelAt(f: Frame, k: nat): Rgb requires k < Pixels {
    Rgb(Red(f, k), Green(f, k), Blue(f, k))
  }

  /** The colour pixel `k` should show: that of memory cell 0x200 + k. */
  function Target(mem: Mem, k: nat): Rgb requires k < Pixels {
    Color(mem[ScreenStart + k])
  }

  /** The loop writes a changed pixel's blue byte one slot too far, into the
      next pixel's red.  `SeenRed` is the red byte pixel `k` is compared
      with, `Rewritten` whether the comparison finds a difference. */
  ghost function SeenRed(mem: Mem, frame: Frame, k: nat): u8
    requires k < Pixels
    decreases k, 0
  {
    if k > 0 && Rewritten(mem, frame, k - 1) then Target(mem, k - 1).b else Red(frame, k)
  }

  ghost predicate Rewritten(mem: Mem, frame: Frame, k: nat)
    requires k < Pixels
    decreases k, 1
  {
    Rgb(SeenRed(mem, frame, k), Green(frame, k), Blue(frame, k)) != Target(mem, k)
  }

  /** Pixel `k` of the incoming frame differs from what it should show. */
  ghost predicate Stale(mem: Mem, frame: Frame, k: nat)
    requires k < Pixels
  {
    PixelAt(frame, k) != Target(mem, k)
  }

  /** A rewrite happens only if some pixel at or before it was stale. */
  lemma {:induction false} RewrittenHasStaleWitness(mem: Mem, frame: Frame, k: nat)
    requires k < Pixels && Rewritten(mem, frame, k)
    ensures exists j :: 0 <= j <= k && Stale(mem, frame, j)
    decreases k
  {
    if k > 0 && Rewritten(mem, frame, k - 1) {
      RewrittenHasStaleWitness(mem, frame, k - 1);
    } else {
      assert Stale(mem, frame, k);
    }
  }

  /** A stale pixel is rewritten, unless the pixel before it was. */
  lemma StaleForcesRewrite(mem: Mem, frame: Frame, k: nat)
    requires k < Pixels && Stale(mem, frame, k)
    ensures Rewritten(mem, frame, k) || (k > 0 && Rewritten(mem, frame, k - 1))
  {
    if !(k > 0 && Rewritten(mem, frame, k - 1)) {
      assert SeenRed(mem, frame, k) == Red(frame, k);
    }
  }

  /** Some comparison among the first `n` finds a difference. */
  ghost predicate AnyRewritten(mem: Mem, frame: Frame, n: nat)
    requires n <= Pixels
  {
    exists k :: 0 <= k < n && Rewritten(mem, frame, k)
  }

  /** Some comparison finds a difference exactly when some pixel of the
      incoming frame was stale: the spill never hides the first change. */
  lemma SomeRewrittenIffSomeStale(mem: Mem, frame: Frame, n: nat)
    requires n <= Pixels
    ensures AnyRewritten(mem, frame, n) <==> exists k :: 0 <= k < n && Stale(mem, frame, k)
  {
    if k :| 0 <= k < n && Rewritten(mem, frame, k) {
      RewrittenHasStaleWitness(mem, frame, k);
      var j :| 0 <= j <= k && Stale(mem, frame, j);
      assert 0 <= j < n;
    }
    if k :| 0 <= k < n && Stale(mem, frame, k) {
      StaleForcesRewrite(mem, frame, k);
      if !Rewritten(mem, frame, k) {
        assert 0 <= k - 1 < n && Rewritten(mem, frame, k - 1);
      }
    }
  }

  /** Scanning one more pixel adds its own comparison to the disjunction. */
  lemma AnyRewrittenStep(mem: Mem, frame: Frame, n: nat)
    requires n < Pixels
    ensures AnyRewritten(mem, frame, n + 1) <==> AnyRewritten(mem, frame, n) || Rewritten(mem, frame, n)
  {
    if AnyRewritten(mem, frame, n + 1) && !Rewritten(mem, frame, n) {
      var k :| 0 <= k < n + 1 && Rewritten(mem, frame, k);
      assert k < n;
    }
  }

  /** The writes for one changed pixel `n`: its red, green and blue, and
      its blue once more into the next pixel's red. */
  function Repaint(f: Frame, n: nat, c: Rgb): (g: Frame)
    requires n + 1 < Pixels
    ensures PixelAt(g, n) == c && Red(g, n + 1) == c.b
    ensures forall k :: 0 <= k < Pixels ==> Alpha(g, k) == Alpha(f, k)
    ensures forall k :: 0 <= k < Pixels && k != n ==> Green(g, k) == Green(f, k) && Blue(g, k) == Blue(f, k)
    ensures forall k :: 0 <= k < Pixels && k != n && k != n + 1 ==> Red(g, k) == Red(f, k)
  {
    f[4 * n := c.r][4 * n + 1 := c.g][4 * n + 2 := c.b][4 * n + 4 := c.b]
  }

  /** The state of the frame when the loop reaches pixel `n`: the pixels
      before it are done, no alpha byte has moved, the pixels after it are
      untouched except for the spill into pixel `n`'s red. */
  ghost predicate Scanned(mem: Mem, frame: Frame, f: Frame, n: nat)
    requires n <= Pixels
  {
    && (forall k :: 0 <= k < n ==> PixelAt(f, k) == Target(mem, k))
    && (forall k :: 0 <= k < Pixels ==> Alpha(f, k) == Alpha(frame, k))
    && (forall k :: n <= k < Pixels ==> Green(f, k) == Green(frame, k) && Blue(f, k) == Blue(frame, k))
    && (forall k :: n < k < Pixels ==> Red(f, k) == Red(frame, k))
    && (n < Pixels ==> Red(f, n) == SeenRed(mem, frame, n))
  }

  /** One iteration of the loop keeps `Scanned`, and the comparison it makes
      is the one `Rewritten` describes. */
  lemma ScanStep(mem: Mem, frame: Frame, f: Frame, n: nat)
    requires n < Pixels && Scanned(mem, frame, f, n)
    ensures Rewritten(mem, frame, n) <==> PixelAt(f, n) != Target(mem, n)
    ensures !Rewritten(mem, frame, n) ==> Scanned(mem, frame, f, n + 1)
    ensures Rewritten(mem, frame, n) && n + 1 < Pixels ==>
              Scanned(mem, frame, Repaint(f, n, Target(mem, n)), n + 1)
  {
    if Rewritten(mem, frame, n) && n + 1 < Pixels {
      var g := Repaint(f, n, Target(mem, n));
      assert SeenRed(mem, frame, n + 1) == Target(mem, n).b;
      assert Red(g, n + 1) == SeenRed(mem, frame, n + 1);
    }
    if !Rewritten(mem, frame, n) && n + 1 < Pixels {
      assert SeenRed(mem, frame, n + 1) == Red(frame, n + 1);
    }
  }

  /** `read_screen_state`: brings every pixel of `frame` to the colour of
      its memory cell, 0x200..0x5FF, and reports whether anything changed.
      If the last pixel has to change, the spill writes `frame[4096]`,
      which is out of bounds. */
  method ReadScreenState(mem: Mem, frame: Frame) returns (r: Result<Frame>, update: bool)
    ensures r.Err? <==> Rewritten(mem, frame, Pixels - 1)
    ensures r.Err? ==> r.error == OutOfBounds(FrameSize)
    ensures r.Ok? ==> forall k :: 0 <= k < Pixels ==> PixelAt(r.value, k) == Target(mem, k)
    ensures r.Ok? ==> forall k :: 0 <= k < Pixels ==> Alpha(r.value, k) == Alpha(frame, k)
    ensures r.Ok? ==> (update <==> exists k :: 0 <= k < Pixels && Stale(mem, frame, k))
  {
    var f := frame;
    var frameIdx := 0;
    update := false;
    var i := ScreenStart;
    while i < ScreenStart + Pixels
      invariant ScreenStart <= i <= ScreenStart + Pixels && frameIdx == 4 * (i - ScreenStart)
      invariant Scanned(mem, frame, f, i - ScreenStart)
      invariant update <==> AnyRewritten(mem, frame, i - ScreenStart)
      invariant i == ScreenStart + Pixels ==> !Rewritten(mem, frame, Pixels - 1)
      decreases ScreenStart + Pixels - i
    {
      var n := i - ScreenStart;
      var c := Color(mem[i]);
      assert c == Target(mem, n);
      ScanStep(mem, frame, f, n);
      AnyRewrittenStep(mem, frame, n);
      if f[frameIdx] != c.r || f[frameIdx + 1] != c.g || f[frameIdx + 2] != c.b {
        assert PixelAt(f, n) != c;
        if frameIdx + 4 >= FrameSize {
          return Err(OutOfBounds(frameIdx + 4)), update;
        }
        f := Repaint(f, n, c);
        update := true;
        assert Scanned(mem, frame, f, n + 1) && AnyRewritten(mem, frame, n + 1);
      } else {
        assert Scanned(mem, frame, f, n + 1) && !Rewritten(mem, frame, n);
      }
      frameIdx := frameIdx + 4;
      i := i + 1;
    }
    SomeRewrittenIffSomeStale(mem, frame, Pixels);
    r := Ok(f);
  }
}

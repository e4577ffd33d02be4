/** Assembly and reduction of a stream observation: linearising raw codes
    through the per-channel lookup tables, placing the files of both cameras
    into one frame stack, and the per-pixel reductions over the exposure axis.

    A frame stack of shape (numsum, nCameras, nStates, height, width) is a
    sequence over exposures of a sequence over cameras of one flat image of
    nStates * height * width values, (state, row, column) in row-major order. */
module ReadStream {
  import opened Common
  import opened SampleStats
  import opened AerosolFilter

  /** The image-format configuration (module-level defaults in the source). */
  datatype Geometry = Geometry(nCameras: nat, nStates: nat, height: nat, width: nat,
                               nAdc: nat, nImagesPerFile: nat)

  /** N_CAMERAS, N_STATES, HEIGHT, WIDTH, N_ADC and N_IMAGES_PER_FILE. */
  const DEFAULT_GEOMETRY: Geometry := Geometry(2, 4, 1024, 1024, 4, 2)

  predicate ValidGeometry(g: Geometry) {
    g.nCameras > 0 && g.nStates > 0 && g.height > 0 && g.width > 0 &&
    g.nAdc > 0 && g.nImagesPerFile > 0
  }

  /** Values in one camera's image for one exposure: all states, rows and columns. */
  function ImageSize(g: Geometry): nat {
    g.nStates * g.height * g.width
  }

  /** The ADC channel of flat element k: its column modulo the channel count. */
  function Channel(g: Geometry, k: nat): nat
    requires ValidGeometry(g)
  {
    (k % g.width) % g.nAdc
  }

  datatype StreamError =
    | ShapeMismatch    // a raw file does not reshape to the file geometry
    | OutOfRange       // a raw code lies outside its lookup table
    | MissingCamera    // a camera index beyond the frame stack's camera axis
    | SliceMismatch    // a camera-1 file of several exposures lands beyond those of camera 0

  /** Every raw code indexes inside the table of its channel. */
  predicate InTables(g: Geometry, im: seq<nat>, lut: seq<seq<nat>>)
    requires ValidGeometry(g) && |lut| == g.nAdc
  {
    forall k :: 0 <= k < |im| ==> im[k] < |lut[Channel(g, k)]|
  }

  /** Every table maps each code to itself. */
  predicate IsIdentity(lut: seq<seq<nat>>) {
    forall t, i :: 0 <= t < |lut| && 0 <= i < |lut[t]| ==> lut[t][i] == i
  }

  /** apply_lut: the element at column w becomes lut[w mod nAdc][raw]; a raw
      code outside its table fails the whole image, as numpy's indexing does. */
  method ApplyLut(g: Geometry, im: seq<nat>, lut: seq<seq<nat>>) returns (r: Result<seq<nat>, StreamError>)
    requires ValidGeometry(g) && |lut| == g.nAdc
    ensures r.Ok? <==> InTables(g, im, lut)
    ensures r.Err? ==> r.error == OutOfRange
    ensures r.Ok? ==>
      |r.value| == |im| && forall k :: 0 <= k < |im| ==> r.value[k] == lut[Channel(g, k)][im[k]]
    ensures IsIdentity(lut) && InTables(g, im, lut) ==> r == Ok(im)
  {
    var out := new nat[|im|];
    var k := 0;
    while k < |im|
      invariant 0 <= k <= |im|
      invariant forall j :: 0 <= j < k ==> im[j] < |lut[Channel(g, j)]| && out[j] == lut[Channel(g, j)][im[j]]
    {
      var table := lut[Channel(g, k)];
      if im[k] >= |table| {
        return Err(OutOfRange);
      }
      out[k] := table[im[k]];
      k := k + 1;
    }
    if IsIdentity(lut) {
      assert out[..] == im;
    }
    return Ok(out[..]);
  }

  /** The shape (numsum, nCameras, image) of a frame stack. */
  predicate IsFrameStack(g: Geometry, frames: seq<seq<seq<nat>>>) {
    forall n :: 0 <= n < |frames| ==>
      |frames[n]| == g.nCameras &&
      forall c :: 0 <= c < g.nCameras ==> |frames[n][c]| == ImageSize(g)
  }

  /** The files of an observation can be read: every file has the file
      geometry and codes inside its tables, a camera that has files exists in
      the stack, and camera 1 has no more files than camera 0 unless a file
      holds a single exposure (numpy then broadcasts the surplus file's one
      image into the empty slice past the stack). */
  predicate Readable(g: Geometry, files: seq<seq<seq<nat>>>, luts: seq<seq<seq<nat>>>)
    requires ValidGeometry(g) && |files| == 2 && |luts| == 2
    requires forall c :: 0 <= c < 2 ==> |luts[c]| == g.nAdc
  {
    (g.nImagesPerFile > 1 ==> |files[1]| <= |files[0]|) &&
    forall c :: 0 <= c < 2 ==>
      (|files[c]| > 0 ==> c < g.nCameras) &&
      forall i :: 0 <= i < |files[c]| ==>
        |files[c][i]| == g.nImagesPerFile * ImageSize(g) && InTables(g, files[c][i], luts[c])
  }

  /** Camera 1 with a file while camera 0 has none: the stack has no
      exposures, and the assignment succeeds exactly when numpy can broadcast
      the file's images into the empty slice, that is when it holds one. */
  lemma SurplusCameraOneFile(g: Geometry, f: seq<nat>, luts: seq<seq<seq<nat>>>)
    requires ValidGeometry(g) && g.nCameras >= 2 && |luts| == 2
    requires forall c :: 0 <= c < 2 ==> |luts[c]| == g.nAdc
    requires FileFits(g, f, luts[1])
    ensures Readable(g, [[], [f]], luts) <==> g.nImagesPerFile == 1
  {
    var files := [[], [f]];
    assert files[1][0] == f;
  }

  /** image is image e of the raw file, linearised through the camera's tables. */
  predicate ImageFilled(g: Geometry, image: seq<nat>, raw: seq<nat>, lut: seq<seq<nat>>, e: nat)
    requires ValidGeometry(g) && |lut| == g.nAdc
  {
    |image| == ImageSize(g) &&
    forall q :: 0 <= q < ImageSize(g) ==>
      FileOffset(g, e, q) < |raw| &&
      raw[FileOffset(g, e, q)] < |lut[Channel(g, q)]| &&
      image[q] == lut[Channel(g, q)][raw[FileOffset(g, e, q)]]
  }

  /** Exposure slot n of camera c holds the linearised image n mod N of that
      camera's file n div N, N being the exposures per file. */
  predicate SlotFilled(g: Geometry, frames: seq<seq<seq<nat>>>, files: seq<seq<seq<nat>>>,
                       luts: seq<seq<seq<nat>>>, c: nat, n: nat)
    requires ValidGeometry(g) && |files| == 2 && |luts| == 2 && c < 2
    requires forall c :: 0 <= c < 2 ==> |luts[c]| == g.nAdc
  {
    n < |frames| && c < |frames[n]| && n / g.nImagesPerFile < |files[c]| &&
    ImageFilled(g, frames[n][c], files[c][n / g.nImagesPerFile], luts[c], n % g.nImagesPerFile)
  }

  /** Position of element q of image e inside a raw file. */
  function FileOffset(g: Geometry, e: nat, q: nat): nat {
    e * ImageSize(g) + q
  }

  /** read_time (stack assembly): numsum is the number of camera-0 files
      times the exposures per file, and file i of camera c fills exactly the
      exposure slots [i * N, (i + 1) * N) of that camera, in the order the
      files are given. Camera 1 may have fewer files than camera 0 (its
      remaining slots keep unspecified values); more only when a file holds
      one exposure, and then its surplus files change nothing. */
  method ReadTime(g: Geometry, files: seq<seq<seq<nat>>>, luts: seq<seq<seq<nat>>>)
    returns (r: Result<(seq<seq<seq<nat>>>, nat), StreamError>)
    requires ValidGeometry(g) && |files| == 2 && |luts| == 2
    requires forall c :: 0 <= c < 2 ==> |luts[c]| == g.nAdc
    ensures r.Ok? <==> Readable(g, files, luts)
    ensures r.Ok? ==>
      var frames, numsum := r.value.0, r.value.1;
      numsum == |files[0]| * g.nImagesPerFile && |frames| == numsum && IsFrameStack(g, frames) &&
      forall c, n :: 0 <= c < 2 && 0 <= n < |files[c]| * g.nImagesPerFile && n < numsum ==>
        c < g.nCameras && SlotFilled(g, frames, files, luts, c, n)
  {
    var N := g.nImagesPerFile;
    var size := ImageSize(g);
    var numsum := |files[0]| * N;
    var blank: seq<nat> := seq(size, _ => 0);
    // np.empty: the model starts every slot at 0, the contract leaves unfilled slots unspecified
    var fr := new seq<seq<nat>>[numsum](_ => seq(g.nCameras, _ => blank));
    for c := 0 to 2
      invariant IsFrameStack(g, fr[..])
      invariant Checked(g, files, luts, c, 0) && Filled(g, fr[..], files, luts, c, 0)
    {
      var failure := ReadCamera(g, fr, files, luts, c);
      if failure.Some? {
        return Err(failure.value);
      }
      CameraDone(g, fr[..], files, luts, c);
    }
    AllChecked(g, files, luts);
    return Ok((fr[..], numsum));
  }

  /** The `for i, f in enumerate(files[c])` loop of read_time for one camera:
      either every file of camera c is checked and placed, or the first
      failing file gives the reason the files are not readable. */
  method ReadCamera(g: Geometry, fr: array<seq<seq<nat>>>, files: seq<seq<seq<nat>>>,
                    luts: seq<seq<seq<nat>>>, c: nat)
    returns (failure: Option<StreamError>)
    requires ValidGeometry(g) && |files| == 2 && |luts| == 2 && c < 2
    requires forall c :: 0 <= c < 2 ==> |luts[c]| == g.nAdc
    requires fr.Length == |files[0]| * g.nImagesPerFile && IsFrameStack(g, fr[..])
    requires Checked(g, files, luts, c, 0) && Filled(g, fr[..], files, luts, c, 0)
    modifies fr
    ensures IsFrameStack(g, fr[..])
    ensures failure.None? ==> Checked(g, files, luts, c, |files[c]|) && Filled(g, fr[..], files, luts, c, |files[c]|)
    ensures failure.Some? ==> !Readable(g, files, luts)
  {
    var N := g.nImagesPerFile;
    for i := 0 to |files[c]|
      invariant IsFrameStack(g, fr[..])
      invariant Checked(g, files, luts, c, i) && Filled(g, fr[..], files, luts, c, i)
    {
      var raw := files[c][i];
      if |raw| != N * ImageSize(g) {
        return Some(ShapeMismatch);
      }
      var lin := ApplyLut(g, raw, luts[c]);
      if lin.Err? {
        return Some(OutOfRange);
      }
      if c >= g.nCameras {
        return Some(MissingCamera);
      }
      if i >= |files[0]| {
        if N > 1 {
          return Some(SliceMismatch);
        }
        // frames[i:i + 1, c] is empty and the one image broadcasts into it
        FilledPast(g, fr[..], files, luts, c, i);
      } else {
        ghost var before := fr[..];
        PlaceFile(g, fr, files, luts, c, i, lin.value);
        FilledNext(g, before, fr[..], files, luts, c, i);
      }
    }
    return None;
  }

  /** The files of the cameras before c, and the first i files of camera c,
      have the file geometry and codes inside their tables. */
  predicate Checked(g: Geometry, files: seq<seq<seq<nat>>>, luts: seq<seq<seq<nat>>>, c: nat, i: nat)
    requires ValidGeometry(g) && |files| == 2 && |luts| == 2
    requires forall c :: 0 <= c < 2 ==> |luts[c]| == g.nAdc
  {
    c <= 2
    && (forall c' :: 0 <= c' < c ==>
          ((g.nImagesPerFile > 1 ==> |files[c']| <= |files[0]|) && (|files[c']| > 0 ==> c' < g.nCameras)
           && forall i' :: 0 <= i' < |files[c']| ==> FileFits(g, files[c'][i'], luts[c'])))
    && (c < 2 ==> i <= |files[c]| && forall i' :: 0 <= i' < i ==>
      c < g.nCameras && (g.nImagesPerFile > 1 ==> i' < |files[0]|) && FileFits(g, files[c][i'], luts[c]))
  }

  predicate FileFits(g: Geometry, raw: seq<nat>, lut: seq<seq<nat>>)
    requires ValidGeometry(g) && |lut| == g.nAdc
  {
    |raw| == g.nImagesPerFile * ImageSize(g) && InTables(g, raw, lut)
  }

  /** The slots of the cameras before c, and those of the first i files of
      camera c, are filled. */
  predicate Filled(g: Geometry, frames: seq<seq<seq<nat>>>, files: seq<seq<seq<nat>>>, luts: seq<seq<seq<nat>>>,
                   c: nat, i: nat)
    requires ValidGeometry(g) && |files| == 2 && |luts| == 2
    requires forall c :: 0 <= c < 2 ==> |luts[c]| == g.nAdc
  {
    (forall c', n :: 0 <= c' < c && c' < 2 && 0 <= n < |files[c']| * g.nImagesPerFile && n < |files[0]| * g.nImagesPerFile ==>
      c' < g.nCameras && SlotFilled(g, frames, files, luts, c', n))
    && (c < 2 ==> forall n :: 0 <= n < i * g.nImagesPerFile && n < |files[0]| * g.nImagesPerFile ==>
      c < g.nCameras && SlotFilled(g, frames, files, luts, c, n))
  }

  /** A file past the stack's exposures fills no slot: the filled slots stay as they are. */
  lemma FilledPast(g: Geometry, f: seq<seq<seq<nat>>>, files: seq<seq<seq<nat>>>, luts: seq<seq<seq<nat>>>,
                   c: nat, i: nat)
    requires ValidGeometry(g) && |files| == 2 && |luts| == 2 && c < 2 && |files[0]| <= i
    requires forall c :: 0 <= c < 2 ==> |luts[c]| == g.nAdc
    requires Filled(g, f, files, luts, c, i)
    ensures Filled(g, f, files, luts, c, i + 1)
  {
    var N := g.nImagesPerFile;
    MulMonotone(|files[0]|, i, N);
    forall c', n | 0 <= c' < c && c' < 2 && 0 <= n < |files[c']| * N && n < |files[0]| * N
      ensures c' < g.nCameras && SlotFilled(g, f, files, luts, c', n)
    {
      assert SlotFilled(g, f, files, luts, c', n);
    }
    if 0 < |files[0]| * N {
      // slot 0 exists, so camera c is one of the stack's cameras
      assert SlotFilled(g, f, files, luts, c, 0);
      forall n | 0 <= n < (i + 1) * N && n < |files[0]| * N
        ensures SlotFilled(g, f, files, luts, c, n)
      {
        assert 0 <= n < i * N;
      }
    }
  }

  /** Placing file i of camera c keeps every filled slot and fills that file's. */
  lemma FilledNext(g: Geometry, f0: seq<seq<seq<nat>>>, f: seq<seq<seq<nat>>>, files: seq<seq<seq<nat>>>,
                   luts: seq<seq<seq<nat>>>, c: nat, i: nat)
    requires ValidGeometry(g) && |files| == 2 && |luts| == 2 && c < 2 && i < |files[c]|
    requires forall c :: 0 <= c < 2 ==> |luts[c]| == g.nAdc
    requires Filled(g, f0, files, luts, c, i) && FilePlaced(g, f0, f, files, luts, c, i)
    ensures Filled(g, f, files, luts, c, i + 1)
  {
    var N := g.nImagesPerFile;
    assert (i + 1) * N == i * N + N;
    forall c', n | 0 <= c' < c && 0 <= n < |files[c']| * N && n < |files[0]| * N
      ensures c' < g.nCameras && SlotFilled(g, f, files, luts, c', n)
    {
      assert SlotFilled(g, f0, files, luts, c', n) && c' < g.nCameras;
      assert f[n][c'] == f0[n][c'];
      SlotFilledSame(g, f0, f, files, luts, c', n);
    }
    assert SlotFilled(g, f, files, luts, c, i * N) && |f[i * N]| == g.nCameras;
    forall n | 0 <= n < (i + 1) * N && n < |files[0]| * N ensures SlotFilled(g, f, files, luts, c, n) {
      if n < i * N {
        assert SlotFilled(g, f0, files, luts, c, n);
        assert f[n] == f0[n];
        SlotFilledSame(g, f0, f, files, luts, c, n);
      } else {
        assert SlotFilled(g, f, files, luts, c, n);
      }
    }
  }

  /** Camera c done: move on to the next camera. */
  lemma CameraDone(g: Geometry, f: seq<seq<seq<nat>>>, files: seq<seq<seq<nat>>>, luts: seq<seq<seq<nat>>>, c: nat)
    requires ValidGeometry(g) && |files| == 2 && |luts| == 2 && c < 2
    requires forall c :: 0 <= c < 2 ==> |luts[c]| == g.nAdc
    requires Checked(g, files, luts, c, |files[c]|) && Filled(g, f, files, luts, c, |files[c]|)
    ensures Checked(g, files, luts, c + 1, 0) && Filled(g, f, files, luts, c + 1, 0)
  {
    if |files[c]| > 0 {
      assert FileFits(g, files[c][|files[c]| - 1], luts[c]);
    }
  }

  lemma AllChecked(g: Geometry, files: seq<seq<seq<nat>>>, luts: seq<seq<seq<nat>>>)
    requires ValidGeometry(g) && |files| == 2 && |luts| == 2
    requires forall c :: 0 <= c < 2 ==> |luts[c]| == g.nAdc
    requires Checked(g, files, luts, 2, 0)
    ensures Readable(g, files, luts)
  {
  }

  /** frames[i * N:(i + 1) * N, c] = the linearised file. */
  method PlaceFile(g: Geometry, fr: array<seq<seq<nat>>>, files: seq<seq<seq<nat>>>,
                   luts: seq<seq<seq<nat>>>, c: nat, i: nat, lin: seq<nat>)
    requires ValidGeometry(g) && |files| == 2 && |luts| == 2 && c < 2
    requires forall c :: 0 <= c < 2 ==> |luts[c]| == g.nAdc
    requires c < g.nCameras && i < |files[c]| && i < |files[0]|
    requires fr.Length == |files[0]| * g.nImagesPerFile && IsFrameStack(g, fr[..])
    requires |files[c][i]| == g.nImagesPerFile * ImageSize(g) && InTables(g, files[c][i], luts[c])
    requires |lin| == |files[c][i]|
    requires forall k :: 0 <= k < |lin| ==> lin[k] == luts[c][Channel(g, k)][files[c][i][k]]
    modifies fr
    ensures IsFrameStack(g, fr[..]) && FilePlaced(g, old(fr[..]), fr[..], files, luts, c, i)
  {
    var N := g.nImagesPerFile;
    SlotBounds(i, N, |files[0]|);
    assert (i + 1) * N == i * N + N;
    var base := i * N;
    for e := 0 to N
      invariant PlacedPrefix(g, old(fr[..]), fr[..], files, luts, c, i, base, e)
    {
      var image := FileImage(g, files[c][i], luts[c], lin, e);
      ghost var before := fr[..];
      fr[base + e] := fr[base + e][c := image];
      PlacedStep(g, old(fr[..]), before, fr[..], files, luts, c, i, base, e, image);
    }
    PlacedSlots(g, old(fr[..]), fr[..], files, luts, c, i, N);
  }

  /** File i of camera c is in place: f is f0 with slots [i * N, (i + 1) * N)
      of camera c filled from that file and nothing else changed. */
  predicate FilePlaced(g: Geometry, f0: seq<seq<seq<nat>>>, f: seq<seq<seq<nat>>>, files: seq<seq<seq<nat>>>,
                       luts: seq<seq<seq<nat>>>, c: nat, i: nat)
    requires ValidGeometry(g) && |files| == 2 && |luts| == 2 && c < 2
    requires forall c :: 0 <= c < 2 ==> |luts[c]| == g.nAdc
  {
    var N := g.nImagesPerFile;
    |f| == |f0| && IsFrameStack(g, f0) && IsFrameStack(g, f) && (i + 1) * N <= |f|
    && (forall n, c' :: 0 <= n < |f| && 0 <= c' < g.nCameras && c' != c ==> f[n][c'] == f0[n][c'])
    && (forall n :: 0 <= n < |f| && !(i * N <= n < (i + 1) * N) ==> f[n] == f0[n])
    && (forall n :: i * N <= n < (i + 1) * N ==> SlotFilled(g, f, files, luts, c, n))
  }

  /** Slots [base, base + e) of camera c hold images 0 to e - 1 of file i of
      that camera, and nothing else differs from f0. */
  predicate PlacedPrefix(g: Geometry, f0: seq<seq<seq<nat>>>, f: seq<seq<seq<nat>>>, files: seq<seq<seq<nat>>>,
                         luts: seq<seq<seq<nat>>>, c: nat, i: nat, base: nat, e: nat)
    requires ValidGeometry(g) && |files| == 2 && |luts| == 2 && c < 2 && i < |files[c]|
    requires forall c :: 0 <= c < 2 ==> |luts[c]| == g.nAdc
  {
    |f| == |f0| && IsFrameStack(g, f0) && IsFrameStack(g, f) && base + e <= |f| && c < g.nCameras
    && (forall n, c' :: 0 <= n < |f| && 0 <= c' < g.nCameras && c' != c ==> f[n][c'] == f0[n][c'])
    && (forall n :: 0 <= n < |f| && !(base <= n < base + e) ==> f[n] == f0[n])
    && (forall n :: base <= n < base + e ==> ImageFilled(g, f[n][c], files[c][i], luts[c], n - base))
  }

  lemma PlacedStep(g: Geometry, f0: seq<seq<seq<nat>>>, f: seq<seq<seq<nat>>>, f1: seq<seq<seq<nat>>>,
                   files: seq<seq<seq<nat>>>, luts: seq<seq<seq<nat>>>, c: nat, i: nat, base: nat, e: nat, image: seq<nat>)
    requires ValidGeometry(g) && |files| == 2 && |luts| == 2 && c < 2 && i < |files[c]|
    requires forall c :: 0 <= c < 2 ==> |luts[c]| == g.nAdc
    requires PlacedPrefix(g, f0, f, files, luts, c, i, base, e) && base + e < |f|
    requires ImageFilled(g, image, files[c][i], luts[c], e)
    requires f1 == f[base + e := f[base + e][c := image]]
    ensures PlacedPrefix(g, f0, f1, files, luts, c, i, base, e + 1)
  {
  }

  /** All N images placed: the slots of file i are filled, in SlotFilled's terms. */
  lemma PlacedSlots(g: Geometry, f0: seq<seq<seq<nat>>>, f: seq<seq<seq<nat>>>, files: seq<seq<seq<nat>>>,
                    luts: seq<seq<seq<nat>>>, c: nat, i: nat, N: nat)
    requires ValidGeometry(g) && |files| == 2 && |luts| == 2 && c < 2 && i < |files[c]|
    requires forall c :: 0 <= c < 2 ==> |luts[c]| == g.nAdc
    requires N == g.nImagesPerFile && PlacedPrefix(g, f0, f, files, luts, c, i, i * N, N)
    ensures FilePlaced(g, f0, f, files, luts, c, i)
  {
    assert (i + 1) * N == i * N + N;
    forall n | i * N <= n < (i + 1) * N ensures SlotFilled(g, f, files, luts, c, n) {
      SlotIndex(i, n - i * N, N);
    }
  }

  lemma SlotFilledSame(g: Geometry, frames1: seq<seq<seq<nat>>>, frames2: seq<seq<seq<nat>>>,
                       files: seq<seq<seq<nat>>>, luts: seq<seq<seq<nat>>>, c: nat, n: nat)
    requires ValidGeometry(g) && |files| == 2 && |luts| == 2 && c < 2
    requires forall c :: 0 <= c < 2 ==> |luts[c]| == g.nAdc
    requires n < |frames1| && n < |frames2| && c < |frames1[n]| && c < |frames2[n]|
    requires frames1[n][c] == frames2[n][c]
    ensures SlotFilled(g, frames1, files, luts, c, n) == SlotFilled(g, frames2, files, luts, c, n)
  {
  }

  /** Image e of a linearised file, cut out of the flat block. */
  function FileImage(g: Geometry, raw: seq<nat>, lut: seq<seq<nat>>, lin: seq<nat>, e: nat): (image: seq<nat>)
    requires ValidGeometry(g) && |lut| == g.nAdc
    requires e < g.nImagesPerFile && |raw| == g.nImagesPerFile * ImageSize(g) && InTables(g, raw, lut)
    requires |lin| == |raw| && forall k :: 0 <= k < |lin| ==> lin[k] == lut[Channel(g, k)][raw[k]]
    ensures ImageFilled(g, image, raw, lut, e)
  {
    OffsetBound(g, e, g.nImagesPerFile);
    var image := lin[e * ImageSize(g) .. (e + 1) * ImageSize(g)];
    assert forall q :: 0 <= q < ImageSize(g) ==> Channel(g, FileOffset(g, e, q)) == Channel(g, q) by {
      forall q | 0 <= q < ImageSize(g) ensures Channel(g, FileOffset(g, e, q)) == Channel(g, q) {
        ChannelShift(g, e, q);
      }
    }
    image
  }

  lemma SlotBounds(i: nat, N: nat, files0: nat)
    requires i < files0
    ensures (i + 1) * N <= files0 * N
  {
    MulMonotone(i + 1, files0, N);
  }

  lemma SlotIndex(i: nat, e: nat, N: nat)
    requires e < N
    ensures (i * N + e) / N == i && (i * N + e) % N == e
  {
    DivModUnique(i * N + e, N, i, e);
  }

  lemma OffsetBound(g: Geometry, e: nat, N: nat)
    requires e < N
    ensures (e + 1) * ImageSize(g) <= N * ImageSize(g)
    ensures e * ImageSize(g) + ImageSize(g) == (e + 1) * ImageSize(g)
  {
    MulMonotone(e + 1, N, ImageSize(g));
  }

  /** Images start at multiples of the row width, so the channel of an
      element does not depend on which image of the file it is in. */
  lemma ChannelShift(g: Geometry, e: nat, q: nat)
    requires ValidGeometry(g)
    ensures Channel(g, FileOffset(g, e, q)) == Channel(g, q)
  {
    var k := e * g.nStates * g.height;
    assert FileOffset(g, e, q) == k * g.width + q;
    ModMultipleAdd(k, g.width, q);
  }

  /** The samples of flat element q of camera c over the exposure axis. */
  function Column(g: Geometry, frames: seq<seq<seq<nat>>>, c: nat, q: nat): (r: seq<nat>)
    requires IsFrameStack(g, frames) && c < g.nCameras && q < ImageSize(g)
    ensures |r| == |frames|
    ensures forall n :: 0 <= n < |frames| ==> r[n] == frames[n][c][q]
  {
    seq(|frames|, n requires 0 <= n < |frames| => frames[n][c][q])
  }

  /** Every sample of the stack lies in [lo, hi]. */
  predicate StackWithin(g: Geometry, frames: seq<seq<seq<nat>>>, lo: nat, hi: nat)
    requires IsFrameStack(g, frames)
  {
    forall n, c, q :: 0 <= n < |frames| && 0 <= c < g.nCameras && 0 <= q < ImageSize(g) ==>
      lo <= frames[n][c][q] <= hi
  }

  lemma ColumnWithin(g: Geometry, frames: seq<seq<seq<nat>>>, c: nat, q: nat, lo: nat, hi: nat)
    requires IsFrameStack(g, frames) && c < g.nCameras && q < ImageSize(g)
    requires StackWithin(g, frames, lo, hi)
    ensures Within(Column(g, frames, c, q), lo, hi)
  {
  }

  /** Applies a per-pixel reduction to every element of every camera. */
  function ReduceStack(g: Geometry, frames: seq<seq<seq<nat>>>, kind: Reduction): (r: seq<seq<nat>>)
    requires IsFrameStack(g, frames) && (kind == SumOf || |frames| > 0)
    ensures |r| == g.nCameras
    ensures forall c :: 0 <= c < g.nCameras ==> |r[c]| == ImageSize(g)
    ensures forall c, q :: 0 <= c < g.nCameras && 0 <= q < ImageSize(g) ==>
      r[c][q] == Reduce(kind, Column(g, frames, c, q))
  {
    seq(g.nCameras, c requires 0 <= c < g.nCameras =>
      seq(ImageSize(g), q requires 0 <= q < ImageSize(g) => Reduce(kind, Column(g, frames, c, q))))
  }

  /** The three reductions over the exposure axis: the exact sum (naive_sum,
      whose float32 rounding is not modelled), and the mean and the median
      truncated into the frame type. */
  datatype Reduction = SumOf | MeanOf | MedianOf

  function Reduce(kind: Reduction, xs: seq<nat>): nat
    requires kind == SumOf || |xs| > 0
  {
    match kind
    case SumOf => Sum(xs)
    case MeanOf => Mean(xs)
    case MedianOf => Median(xs)
  }

  /** naive_sum: the per-pixel sum over the exposure axis; an empty stack
      sums to zero images, as np.sum over an empty axis does. */
  function NaiveSum(g: Geometry, frames: seq<seq<seq<nat>>>): (r: seq<seq<nat>>)
    requires IsFrameStack(g, frames)
    ensures |r| == g.nCameras && forall c :: 0 <= c < g.nCameras ==> |r[c]| == ImageSize(g)
    ensures forall c, q :: 0 <= c < g.nCameras && 0 <= q < ImageSize(g) ==>
      r[c][q] == Sum(Column(g, frames, c, q))
    ensures |frames| == 0 ==> forall c, q :: 0 <= c < g.nCameras && 0 <= q < ImageSize(g) ==> r[c][q] == 0
  {
    ReduceStack(g, frames, SumOf)
  }

  /** frames_mean: np.mean over axis 0, truncated into the frame type. */
  function MeanImage(g: Geometry, frames: seq<seq<seq<nat>>>): (r: seq<seq<nat>>)
    requires IsFrameStack(g, frames) && |frames| > 0
    ensures |r| == g.nCameras && forall c :: 0 <= c < g.nCameras ==> |r[c]| == ImageSize(g)
    ensures forall c, q :: 0 <= c < g.nCameras && 0 <= q < ImageSize(g) ==>
      r[c][q] * |frames| <= Sum(Column(g, frames, c, q)) < (r[c][q] + 1) * |frames|
  {
    ReduceStack(g, frames, MeanOf)
  }

  /** median_image and frames_median: np.median over axis 0, truncated into
      the frame type. */
  function MedianImage(g: Geometry, frames: seq<seq<seq<nat>>>): (r: seq<seq<nat>>)
    requires IsFrameStack(g, frames) && |frames| > 0
    ensures |r| == g.nCameras && forall c :: 0 <= c < g.nCameras ==> |r[c]| == ImageSize(g)
    ensures forall c, q :: 0 <= c < g.nCameras && 0 <= q < ImageSize(g) ==>
      var s := Sort(Column(g, frames, c, q));
      s[(|frames| - 1) / 2] <= r[c][q] <= s[|frames| / 2]
  {
    ReduceStack(g, frames, MedianOf)
  }

  /** The truncated mean image is the naive sum divided by numsum, rounded
      down: mean * numsum <= sum < (mean + 1) * numsum. */
  lemma MeanOfNaiveSum(g: Geometry, frames: seq<seq<seq<nat>>>, c: nat, q: nat)
    requires IsFrameStack(g, frames) && |frames| > 0 && c < g.nCameras && q < ImageSize(g)
    ensures MeanImage(g, frames)[c][q] * |frames| <= NaiveSum(g, frames)[c][q]
    ensures NaiveSum(g, frames)[c][q] < (MeanImage(g, frames)[c][q] + 1) * |frames|
  {
    var s := Sum(Column(g, frames, c, q));
    var n := |frames|;
    assert s == (s / n) * n + s % n;
    assert (s / n + 1) * n == (s / n) * n + n;
  }

  /** Truncating the mean and the median into the frame type never wraps:
      both stay within the range of the samples. For an even count the
      median lies between the two middle samples. */
  lemma ImagesWithin(g: Geometry, frames: seq<seq<seq<nat>>>, lo: nat, hi: nat)
    requires IsFrameStack(g, frames) && |frames| > 0 && StackWithin(g, frames, lo, hi)
    ensures forall c, q :: 0 <= c < g.nCameras && 0 <= q < ImageSize(g) ==>
      lo <= MeanImage(g, frames)[c][q] <= hi && lo <= MedianImage(g, frames)[c][q] <= hi
  {
    forall c, q | 0 <= c < g.nCameras && 0 <= q < ImageSize(g)
      ensures lo <= MeanImage(g, frames)[c][q] <= hi && lo <= MedianImage(g, frames)[c][q] <= hi
    {
      ColumnWithin(g, frames, c, q, lo, hi);
      MeanWithin(Column(g, frames, c, q), lo, hi);
      MedianWithin(Column(g, frames, c, q), lo, hi);
    }
  }

  /** The filtered value of pixel (c, q) depends only on that
      pixel's samples: stacks that agree on frames[:, c, q] agree there. */
  lemma PixelLocality(g: Geometry, f1: seq<seq<seq<nat>>>, f2: seq<seq<seq<nat>>>, c: nat, q: nat)
    requires IsFrameStack(g, f1) && IsFrameStack(g, f2) && |f1| == |f2| > 0
    requires c < g.nCameras && q < ImageSize(g)
    requires forall n :: 0 <= n < |f1| ==> f1[n][c][q] == f2[n][c][q]
    ensures PixelEstimate(Column(g, f1, c, q)) == PixelEstimate(Column(g, f2, c, q))
  {
    assert Column(g, f1, c, q) == Column(g, f2, c, q);
  }

  /** remove_aerosol: every output element is the aerosol-filtered estimate
      of its pixel's samples, computed from the precomputed mean and median
      images; the (state, row, column) loops run over the flat image. The
      output has one image per camera and, for a stack of uint32 samples,
      fits the uint32 frame type. */
  method RemoveAerosol(g: Geometry, frames: seq<seq<seq<nat>>>) returns (corrected: seq<seq<nat>>)
    requires IsFrameStack(g, frames) && |frames| > 0
    ensures |corrected| == g.nCameras
    ensures forall c :: 0 <= c < g.nCameras ==> |corrected[c]| == ImageSize(g)
    ensures forall c, q :: 0 <= c < g.nCameras && 0 <= q < ImageSize(g) ==>
      corrected[c][q] == PixelEstimate(Column(g, frames, c, q))
    ensures StackWithin(g, frames, 0, TWO32 - 1) ==>
      forall c, q :: 0 <= c < g.nCameras && 0 <= q < ImageSize(g) ==> IsU32(corrected[c][q])
  {
    var mean := MeanImage(g, frames);
    var median := MedianImage(g, frames);
    corrected := [];
    for c := 0 to g.nCameras
      invariant |corrected| == c
      invariant forall c' :: 0 <= c' < c ==> |corrected[c']| == ImageSize(g)
      invariant forall c', q :: 0 <= c' < c && 0 <= q < ImageSize(g) ==>
        corrected[c'][q] == PixelEstimate(Column(g, frames, c', q))
    {
      var im := FilterCamera(g, frames, c, mean[c], median[c]);
      corrected := corrected + [im];
    }
    if StackWithin(g, frames, 0, TWO32 - 1) {
      EstimatesFit(g, frames);
    }
  }

  /** The (state, row, column) loops of remove_aerosol for one camera, over
      the flat image, given that camera's mean and median images. */
  method FilterCamera(g: Geometry, frames: seq<seq<seq<nat>>>, c: nat, mean: seq<nat>, median: seq<nat>)
    returns (im: seq<nat>)
    requires IsFrameStack(g, frames) && |frames| > 0 && c < g.nCameras
    requires |mean| == |median| == ImageSize(g)
    requires forall q :: 0 <= q < ImageSize(g) ==>
      mean[q] == Mean(Column(g, frames, c, q)) && median[q] == Median(Column(g, frames, c, q))
    ensures |im| == ImageSize(g)
    ensures forall q :: 0 <= q < ImageSize(g) ==> im[q] == PixelEstimate(Column(g, frames, c, q))
  {
    var out := new nat[ImageSize(g)];
    for q := 0 to ImageSize(g)
      invariant EstimatedUpTo(g, frames, c, out[..], q)
    {
      var column := Column(g, frames, c, q);
      var ind := Inliers(column, median[q]);
      var v;
      if KeepsFiltered(|ind|, |frames|) {
        v := Mean(ind);
      } else {
        v := mean[q];
      }
      EstimateOf(column, mean[q], median[q], v);
      ghost var before := out[..];
      out[q] := v;
      EstimatedStep(g, frames, c, before, out[..], q, v);
    }
    im := out[..];
  }

  /** The first q pixels of s hold their estimates. */
  predicate EstimatedUpTo(g: Geometry, frames: seq<seq<seq<nat>>>, c: nat, s: seq<nat>, q: nat)
    requires IsFrameStack(g, frames) && |frames| > 0 && c < g.nCameras
  {
    q <= |s| == ImageSize(g) && forall q' :: 0 <= q' < q ==> s[q'] == PixelEstimate(Column(g, frames, c, q'))
  }

  lemma EstimatedStep(g: Geometry, frames: seq<seq<seq<nat>>>, c: nat, s0: seq<nat>, s1: seq<nat>, q: nat, v: nat)
    requires IsFrameStack(g, frames) && |frames| > 0 && c < g.nCameras && q < ImageSize(g)
    requires EstimatedUpTo(g, frames, c, s0, q) && v == PixelEstimate(Column(g, frames, c, q)) && s1 == s0[q := v]
    ensures EstimatedUpTo(g, frames, c, s1, q + 1)
  {
  }

  /** The value one pass of the pixel loop stores is the pixel's estimate. */
  lemma EstimateOf(xs: seq<nat>, mean: nat, median: nat, v: nat)
    requires |xs| > 0 && mean == Mean(xs) && median == Median(xs)
    requires var ind := Inliers(xs, median); v == if KeepsFiltered(|ind|, |xs|) then Mean(ind) else mean
    ensures v == PixelEstimate(xs)
  {
  }

  lemma EstimatesFit(g: Geometry, frames: seq<seq<seq<nat>>>)
    requires IsFrameStack(g, frames) && |frames| > 0 && StackWithin(g, frames, 0, TWO32 - 1)
    ensures forall c, q :: 0 <= c < g.nCameras && 0 <= q < ImageSize(g) ==>
      IsU32(PixelEstimate(Column(g, frames, c, q)))
  {
    forall c, q | 0 <= c < g.nCameras && 0 <= q < ImageSize(g)
      ensures IsU32(PixelEstimate(Column(g, frames, c, q)))
    {
      ColumnWithin(g, frames, c, q, 0, TWO32 - 1);
      EstimateWithin(Column(g, frames, c, q), 0, TWO32 - 1);
    }
  }

  /** Below this bound a state difference squares to at most 46340^2, and
      two such squares add up to less than 2^32. */
  const CORONA_EXACT_BELOW: nat := 46341

  /** All four states lie below CORONA_EXACT_BELOW. */
  predicate CoronaExact(s0: nat, s1: nat, s2: nat, s3: nat) {
    s0 < CORONA_EXACT_BELOW && s1 < CORONA_EXACT_BELOW && s2 < CORONA_EXACT_BELOW && s3 < CORONA_EXACT_BELOW
  }

  /** corona on one pixel, before the sqrt, on the uint32 images that
      remove_aerosol returns, so numpy subtracts, squares and adds in
      uint32: every step keeps only the low 32 bits. The result is the low
      32 bits of (s0 - s3)^2 + (s1 - s2)^2, and it is zero exactly when
      state 0 equals state 3 and state 1 equals state 2 as long as that sum
      does not wrap, which holds for states below CORONA_EXACT_BELOW. */
  function CoronaSquared(s0: nat, s1: nat, s2: nat, s3: nat): (r: nat)
    ensures IsU32(r)
    ensures r == WrapU32(Square(s0 - s3) + Square(s1 - s2))
    ensures Square(s0 - s3) + Square(s1 - s2) < TWO32 ==> (r == 0 <==> s0 == s3 && s1 == s2)
    ensures CoronaExact(s0, s1, s2, s3) ==> (r == 0 <==> s0 == s3 && s1 == s2)
  {
    var d03, d12 := WrapU32(s0 - s3), WrapU32(s1 - s2);
    SquareWrapped(s0 - s3);
    SquareWrapped(s1 - s2);
    WrapU32Add(Square(s0 - s3), WrapU32(d12 * d12));
    WrapU32Add(Square(s1 - s2), Square(s0 - s3));
    CoronaNoWrap(s0, s1, s2, s3);
    WrapU32(WrapU32(d03 * d03) + WrapU32(d12 * d12))
  }

  /** Squaring the uint32 difference keeps the low 32 bits of the exact square. */
  lemma SquareWrapped(d: int)
    ensures WrapU32(WrapU32(d) * WrapU32(d)) == WrapU32(Square(d))
  {
    WrapU32Mul(d, WrapU32(d));
    WrapU32Mul(d, d);
    assert d * WrapU32(d) == WrapU32(d) * d;
    assert Square(d) == d * d;
  }

  /** States below CORONA_EXACT_BELOW differ by at most 46340, so the two
      squares add up to less than 2^32. */
  lemma CoronaNoWrap(s0: nat, s1: nat, s2: nat, s3: nat)
    ensures CoronaExact(s0, s1, s2, s3) ==> Square(s0 - s3) + Square(s1 - s2) < TWO32
  {
    if CoronaExact(s0, s1, s2, s3) {
      SquareBelow(s0 - s3);
      SquareBelow(s1 - s2);
    }
  }

  /** A difference of at most 46340 squares to at most 46340^2. */
  lemma SquareBelow(d: int)
    requires -46340 <= d <= 46340
    ensures Square(d) <= 46340 * 46340
  {
    var a := if d < 0 then -d else d;
    MulMonotone(a, 46340, a);
    MulMonotone(a, 46340, 46340);
    assert Square(d) == a * a;
  }

  /** The uint32 corona wraps: state 0 at 65536 and the others at 0 give
      65536^2 = 2^32, whose low 32 bits are 0, although the states differ. */
  lemma CoronaWraps()
    ensures CoronaSquared(65536, 0, 0, 0) == 0
  {
    assert Square(65536 - 0) == TWO32;
  }

  function Square(d: int): (r: nat)
    ensures r == 0 <==> d == 0
    ensures r >= if d < 0 then -d else d
  {
    if d < 0 then (-d) * (-d) else d * d
  }

  /** corona of one camera's image, given as states of P = height * width
      values each (at least four states): element p is the squared corona
      of the four states at p. */
  function CoronaImage(im: seq<nat>, P: nat): (r: seq<nat>)
    requires 4 * P <= |im|
    ensures |r| == P
    ensures forall p :: 0 <= p < P ==> IsU32(r[p])
  {
    seq(P, p requires 0 <= p < P => CoronaSquared(im[p], im[P + p], im[2 * P + p], im[3 * P + p]))
  }

  /** Over states below CORONA_EXACT_BELOW the corona image is zero exactly
      where states 0 and 3 agree and states 1 and 2 agree. */
  lemma CoronaImageZero(im: seq<nat>, P: nat)
    requires 4 * P <= |im|
    ensures forall p :: 0 <= p < P && CoronaExact(im[p], im[P + p], im[2 * P + p], im[3 * P + p]) ==>
      (CoronaImage(im, P)[p] == 0 <==> im[p] == im[3 * P + p] && im[P + p] == im[2 * P + p])
  {
    forall p | 0 <= p < P && CoronaExact(im[p], im[P + p], im[2 * P + p], im[3 * P + p])
      ensures CoronaImage(im, P)[p] == 0 <==> im[p] == im[3 * P + p] && im[P + p] == im[2 * P + p]
    {
      var s0, s1, s2, s3 := im[p], im[P + p], im[2 * P + p], im[3 * P + p];
      assert CoronaImage(im, P)[p] == CoronaSquared(s0, s1, s2, s3);
    }
  }
}

/** The acquisition-side co-adding buffer of the averaging program.

    One camera-0 group waits for the four modulator quad-state frames,
    maps every pixel through camera 0's four lookup tables (pixel j uses
    table j mod 4) and adds the result into a buffer of eight 32-bit images:
    camera 0 owns images [0, 4), camera 1 images [4, 8). A failed frame
    zeroes the whole buffer and ends the group. It ends the integration
    only inside the loop: after a failure in the first group the remaining
    groups still run. A frame seen during cleanup is skipped. The driver runs one group, then NumIntegrations - 1
    more. Images have impix = 4 * impixlut pixels.

    The frames the board delivers are a sequence of waits; a group or a
    loop starting at frame `at` reads the waits from there on. */
module CoAdd {
  import opened Common

  /** Entries per lookup table. */
  const LUTSZ: nat := 4096

  /** BI_OK, or one of the failure codes (aborted, stopped, wait timed
      out, wait failed, queue empty), which the program treats alike. */
  datatype FrameStatus = BiOk | BiFailed

  /** What one wait on the board reports: the wait status, the cleanup
      flag, the number of frames still queued, and the frame's pixels. */
  datatype QuadEvent = QuadEvent(status: FrameStatus, cleanup: bool, queued: nat, pixels: seq<nat>)

  /** Camera 0's four tables, of 32-bit entries. */
  predicate LutsOk(luts: seq<seq<nat>>) {
    |luts| == 4 && forall t :: 0 <= t < 4 ==> |luts[t]| == LUTSZ && AllU32(luts[t])
  }

  /** A frame that is accumulated holds impix codes, each inside the tables
      (the tables are read without a bounds check). */
  predicate FrameOk(e: QuadEvent, impix: nat) {
    e.status == BiOk && !e.cleanup ==>
      |e.pixels| >= impix && forall j :: 0 <= j < impix ==> e.pixels[j] < LUTSZ
  }

  predicate EventsOk(events: seq<QuadEvent>, impix: nat) {
    forall i :: 0 <= i < |events| ==> FrameOk(events[i], impix) && IsU32(events[i].queued)
  }

  /** A successful frame: it is not seen during cleanup and its wait succeeded. */
  predicate Accumulated(e: QuadEvent) {
    e.status == BiOk && !e.cleanup
  }

  /** The buffer of eight images and the lag counter (*pBuffQSz). */
  datatype Totals = Totals(buf: seq<nat>, lag: nat)

  /** The state inside one group: the totals, the write offset pAvg, whether
      the group was aborted, and whether the last wait succeeded (Error == BI_OK). */
  datatype Quad = Quad(t: Totals, pos: nat, aborted: bool, lastOk: bool)

  /** The table value added for pixel j of a frame: entry pixels[j] of
      table j mod 4. Frames whose codes lie outside the tables are excluded
      by FrameOk wherever the program reads them; there the value is 0. */
  function LutValue(e: QuadEvent, luts: seq<seq<nat>>, j: nat): nat {
    var t := j % 4;
    if t < |luts| && j < |e.pixels| && e.pixels[j] < |luts[t]| then luts[t][e.pixels[j]] else 0
  }

  /** The table values of a frame's first n pixels, in pixel order. */
  function Mapped(e: QuadEvent, luts: seq<seq<nat>>, n: nat): (r: seq<nat>)
    ensures |r| == n
  {
    if n == 0 then [] else Mapped(e, luts, n - 1) + [LutValue(e, luts, n - 1)]
  }

  /** Element j of the mapped frame is pixel j's table value. */
  lemma {:induction false} MappedAt(e: QuadEvent, luts: seq<seq<nat>>, n: nat, j: nat)
    requires j < n
    ensures Mapped(e, luts, n)[j] == LutValue(e, luts, j)
  {
    if j < n - 1 {
      MappedAt(e, luts, n - 1, j);
    }
  }

  /** Element k of a buffer whose old value is v, after vals is added,
      wrapping, at [pos, pos + |vals|). */
  function Added(v: nat, k: int, pos: nat, vals: seq<nat>): nat {
    if pos <= k < pos + |vals| then WrapU32(v + vals[k - pos]) else v
  }

  /** buf with vals added element by element at [pos, pos + |vals|). */
  function AddFrame(buf: seq<nat>, pos: nat, vals: seq<nat>): (r: seq<nat>)
    ensures |r| == |buf|
  {
    seq(|buf|, k requires 0 <= k < |buf| => Added(buf[k], k, pos, vals))
  }

  /** A buffer of n zeroes. */
  function Zeroes(n: nat): (r: seq<nat>)
    ensures |r| == n && forall k :: 0 <= k < n ==> r[k] == 0
  {
    seq(n, _ => 0)
  }

  /** One pass of the quad-state loop body. */
  function QuadStep(a: Quad, e: QuadEvent, luts: seq<seq<nat>>, impix: nat): (b: Quad)
    ensures |b.t.buf| == |a.t.buf|
  {
    var lag := if e.queued != 0 then WrapU32(a.t.lag + e.queued) else a.t.lag;
    var ok := e.status == BiOk;
    if e.cleanup then Quad(Totals(a.t.buf, lag), a.pos, a.aborted, ok)
    else if ok then Quad(Totals(AddFrame(a.t.buf, a.pos, Mapped(e, luts, impix)), lag), a.pos + impix, a.aborted, ok)
    else Quad(Totals(Zeroes(|a.t.buf|), lag), a.pos, true, ok)
  }

  /** The quad-state loop from quad q on, reading frames from index at: it
      stops after quad 3 or at an abort. Returns the state and the number
      of frames waited for. */
  function GroupFrom(a: Quad, events: seq<QuadEvent>, at: nat, luts: seq<seq<nat>>, impix: nat, q: nat)
    : (r: (Quad, nat))
    requires q <= 4 && at + (4 - q) <= |events|
    ensures r.1 <= 4 - q && |r.0.t.buf| == |a.t.buf|
    decreases |events| - at
  {
    if q == 4 || a.aborted then (a, 0)
    else
      var r := GroupFrom(QuadStep(a, events[at], luts, impix), events, at + 1, luts, impix, q + 1);
      (r.0, r.1 + 1)
  }

  /** One inclusion of the group: pAvg restarts at the start of the buffer. */
  function Group(t: Totals, events: seq<QuadEvent>, at: nat, luts: seq<seq<nat>>, impix: nat): (r: (Quad, nat))
    requires at + 4 <= |events|
    ensures 1 <= r.1 <= 4 && |r.0.t.buf| == |t.buf|
  {
    GroupFrom(Quad(t, 0, false, false), events, at, luts, impix, 0)
  }

  /** The driver's for loop, from iiN to iiNlimit: an abort sets iiN to
      NumIntegrations, which ends the loop. Returns the totals, the frames
      waited for and whether the last wait succeeded. */
  function IntegrateLoop(t: Totals, lastOk: bool, events: seq<QuadEvent>, at: nat, luts: seq<seq<nat>>, impix: nat,
                         iiN: int, limit: int): (r: (Totals, nat, bool))
    requires at <= |events| && (iiN < limit ==> at + 4 * (limit - iiN) <= |events|)
    ensures at + r.1 <= |events| && |r.0.buf| == |t.buf|
    ensures r.1 <= if iiN < limit then 4 * (limit - iiN) else 0
    decreases limit - iiN
  {
    if iiN >= limit then (t, 0, lastOk)
    else
      var g := Group(t, events, at, luts, impix);
      var next := if g.0.aborted then limit + 1 else iiN + 1;
      var r := IntegrateLoop(g.0.t, g.0.lastOk, events, at + g.1, luts, impix, next, limit);
      (r.0, r.1 + g.1, r.2)
  }

  /** The number of groups the integration runs when every frame succeeds. */
  function Groups(numIntegrations: int): nat {
    if numIntegrations > 1 then numIntegrations else 1
  }

  /** The integration of AvgingProgramCam0: one group, then the for loop
      from iiN = 1 below NumIntegrations. */
  function Integrate(t: Totals, events: seq<QuadEvent>, luts: seq<seq<nat>>, impix: nat, numIntegrations: int)
    : (r: (Totals, nat, bool))
    requires 4 * Groups(numIntegrations) <= |events|
    ensures 1 <= r.1 <= 4 * Groups(numIntegrations) && |r.0.buf| == |t.buf|
  {
    var g := Group(t, events, 0, luts, impix);
    var r := IntegrateLoop(g.0.t, g.0.lastOk, events, g.1, luts, impix, 1, numIntegrations);
    (r.0, r.1 + g.1, r.2)
  }

  /** The quad-state loop body, case by case: the queued-frame count is
      added to the lag counter (wrapping) whenever it is non-zero; a frame
      seen during cleanup changes neither the buffer nor the write offset;
      a successful frame adds table value lut[j mod 4][raw] into element
      pos + j for every j < impix and advances the offset by impix, leaving
      all other elements alone; a failed frame zeroes all eight images and
      aborts. */
  lemma QuadStepCases(a: Quad, e: QuadEvent, luts: seq<seq<nat>>, impix: nat)
    requires LutsOk(luts) && FrameOk(e, impix) && a.pos + impix <= |a.t.buf|
    requires IsU32(a.t.lag) && IsU32(e.queued)
    ensures var b := QuadStep(a, e, luts, impix);
      b.t.lag == WrapU32(a.t.lag + e.queued) && b.lastOk == (e.status == BiOk) &&
      (e.cleanup ==> b.t.buf == a.t.buf && b.pos == a.pos && b.aborted == a.aborted) &&
      (Accumulated(e) ==>
        b.pos == a.pos + impix && b.aborted == a.aborted &&
        (forall j :: 0 <= j < impix ==>
          b.t.buf[a.pos + j] == WrapU32(a.t.buf[a.pos + j] + luts[j % 4][e.pixels[j]])) &&
        (forall k :: 0 <= k < |a.t.buf| && !(a.pos <= k < a.pos + impix) ==> b.t.buf[k] == a.t.buf[k])) &&
      (!e.cleanup && e.status == BiFailed ==>
        b.aborted && forall k :: 0 <= k < |b.t.buf| ==> b.t.buf[k] == 0)
  {
    if Accumulated(e) {
      var vals := Mapped(e, luts, impix);
      var b := AddFrame(a.t.buf, a.pos, vals);
      forall j | 0 <= j < impix
        ensures b[a.pos + j] == WrapU32(a.t.buf[a.pos + j] + luts[j % 4][e.pixels[j]])
      {
        MappedAt(e, luts, impix, j);
      }
    }
  }

  lemma OffsetRoom(pos: nat, q: nat, impix: nat)
    requires q < 4 && pos <= q * impix
    ensures pos + impix <= 4 * impix && pos + impix <= (q + 1) * impix
  {
    assert q <= 3;
    assert q * impix <= 3 * impix by {
      assert (3 - q) * impix >= 0;
    }
  }

  /** After a group, either it was aborted and the whole buffer is zero, or
      camera 1's half [4 * impix, 8 * impix) is exactly as before. */
  lemma {:induction false} GroupFromCameraOne(a: Quad, events: seq<QuadEvent>, at: nat, luts: seq<seq<nat>>,
                                              impix: nat, q: nat)
    requires q <= 4 && at + (4 - q) <= |events| && |a.t.buf| == 8 * impix && a.pos <= q * impix && !a.aborted
    ensures var r := GroupFrom(a, events, at, luts, impix, q).0;
      if r.aborted then r.t.buf == Zeroes(8 * impix)
      else forall k :: 4 * impix <= k < 8 * impix ==> r.t.buf[k] == a.t.buf[k]
    decreases 4 - q
  {
    if q < 4 {
      OffsetRoom(a.pos, q, impix);
      var b := QuadStep(a, events[at], luts, impix);
      if b.aborted {
        assert b.t.buf == Zeroes(8 * impix);
      } else {
        GroupFromCameraOne(b, events, at + 1, luts, impix, q + 1);
      }
    }
  }

  lemma GroupCameraOne(t: Totals, events: seq<QuadEvent>, at: nat, luts: seq<seq<nat>>, impix: nat)
    requires at + 4 <= |events| && |t.buf| == 8 * impix
    ensures var r := Group(t, events, at, luts, impix).0;
      if r.aborted then r.t.buf == Zeroes(8 * impix)
      else forall k :: 4 * impix <= k < 8 * impix ==> r.t.buf[k] == t.buf[k]
  {
    GroupFromCameraOne(Quad(t, 0, false, false), events, at, luts, impix, 0);
  }

  /** A group whose first wait fails stops there: one frame, the buffer
      zeroed, aborted, and the last wait not BI_OK. */
  lemma GroupFirstFails(t: Totals, events: seq<QuadEvent>, at: nat, luts: seq<seq<nat>>, impix: nat)
    requires at + 4 <= |events| && !events[at].cleanup && events[at].status == BiFailed
    ensures var b := QuadStep(Quad(t, 0, false, false), events[at], luts, impix);
      var g := Group(t, events, at, luts, impix);
      g.0 == b && g.1 == 1 && b.aborted && !b.lastOk && b.t.buf == Zeroes(|t.buf|)
  {
    var a := Quad(t, 0, false, false);
    var b := QuadStep(a, events[at], luts, impix);
    GroupFromUnfold(a, events, at, luts, impix, 0);
    GroupFromAborted(b, events, at + 1, luts, impix, 1);
  }

  /** Frame i of the group that starts at frame at. */
  function Frame(events: seq<QuadEvent>, at: nat, i: nat): QuadEvent
    requires at + i < |events|
  {
    events[at + i]
  }

  /** The frames [at, at + n) are all successful. */
  predicate AllAccumulated(events: seq<QuadEvent>, at: nat, n: nat)
    requires at + n <= |events|
  {
    forall k :: at <= k < at + n ==> Accumulated(events[k])
  }

  /** Images from..3 of after are those of before with the group's frame i
      added into image i: element i * impix + j gains lut[j mod 4][raw j]. */
  predicate AddedImages(before: seq<nat>, after: seq<nat>, es: seq<QuadEvent>, at: nat, luts: seq<seq<nat>>,
                        impix: nat, from: nat)
    requires |before| == |after| == 8 * impix && at + 4 <= |es|
  {
    forall i, j :: from <= i < 4 && 0 <= j < impix ==>
      i * impix + j < 4 * impix &&
      after[i * impix + j] == WrapU32(before[i * impix + j] + LutValue(Frame(es, at, i), luts, j))
  }

  lemma AddedImagesAt(before: seq<nat>, after: seq<nat>, es: seq<QuadEvent>, at: nat, luts: seq<seq<nat>>,
                      impix: nat, from: nat, i: nat, j: nat)
    requires |before| == |after| == 8 * impix && at + 4 <= |es|
    requires AddedImages(before, after, es, at, luts, impix, from)
    requires from <= i < 4 && j < impix
    ensures after[i * impix + j] == WrapU32(before[i * impix + j] + LutValue(Frame(es, at, i), luts, j))
  {
  }

  /** Four successful frames in a row: the group waits for all of them, is
      not aborted, ends on a successful wait, and adds frame i's table
      values into image i of camera 0; everything before image q and camera
      1's half are untouched. Stated from quad q on. */
  lemma {:induction false} GroupFromAllAccumulated(a: Quad, es: seq<QuadEvent>, at: nat, luts: seq<seq<nat>>,
                                                   impix: nat, q: nat)
    requires q <= 4 && at + 4 <= |es| && |a.t.buf| == 8 * impix && a.pos == q * impix && !a.aborted
    requires AllAccumulated(es, at, 4)
    ensures var r := GroupFrom(a, es, at + q, luts, impix, q);
      r.1 == 4 - q && !r.0.aborted && (q < 4 ==> r.0.lastOk) &&
      AddedImages(a.t.buf, r.0.t.buf, es, at, luts, impix, q) &&
      (forall k :: (0 <= k < q * impix || 4 * impix <= k < 8 * impix) ==> r.0.t.buf[k] == a.t.buf[k])
    decreases 4 - q
  {
    if q < 4 {
      assert es[at + q] == Frame(es, at, q);
      var b := QuadStep(a, es[at + q], luts, impix);
      assert (q + 1) * impix == q * impix + impix;
      GroupFromAllAccumulated(b, es, at, luts, impix, q + 1);
      var rb := GroupFrom(b, es, at + q + 1, luts, impix, q + 1);
      AddedStep(a.t.buf, b.t.buf, rb.0.t.buf, es, at, luts, impix, q);
      forall k | 4 * impix <= k < 8 * impix ensures rb.0.t.buf[k] == a.t.buf[k] {
        OffsetRoom(a.pos, q, impix);
        assert b.t.buf[k] == a.t.buf[k];
      }
    }
  }

  /** One successful frame at image q followed by images q+1..3. */
  lemma AddedStep(before: seq<nat>, mid: seq<nat>, after: seq<nat>, es: seq<QuadEvent>, at: nat,
                  luts: seq<seq<nat>>, impix: nat, q: nat)
    requires |before| == |mid| == |after| == 8 * impix && at + 4 <= |es| && q < 4
    requires mid == AddFrame(before, q * impix, Mapped(Frame(es, at, q), luts, impix))
    requires AddedImages(mid, after, es, at, luts, impix, q + 1)
    requires forall k :: 0 <= k < (q + 1) * impix ==> after[k] == mid[k]
    ensures AddedImages(before, after, es, at, luts, impix, q)
  {
    forall i, j | q <= i < 4 && 0 <= j < impix
      ensures i * impix + j < 4 * impix
      ensures after[i * impix + j] == WrapU32(before[i * impix + j] + LutValue(Frame(es, at, i), luts, j))
    {
      AddedStepAt(before, mid, after, es, at, luts, impix, q, i, j);
    }
  }

  lemma AddedStepAt(before: seq<nat>, mid: seq<nat>, after: seq<nat>, es: seq<QuadEvent>, at: nat,
                    luts: seq<seq<nat>>, impix: nat, q: nat, i: nat, j: nat)
    requires |before| == |mid| == |after| == 8 * impix && at + 4 <= |es| && q < 4
    requires mid == AddFrame(before, q * impix, Mapped(Frame(es, at, q), luts, impix))
    requires AddedImages(mid, after, es, at, luts, impix, q + 1)
    requires forall k :: 0 <= k < (q + 1) * impix ==> after[k] == mid[k]
    requires q <= i < 4 && j < impix
    ensures i * impix + j < 4 * impix
    ensures after[i * impix + j] == WrapU32(before[i * impix + j] + LutValue(Frame(es, at, i), luts, j))
  {
    var k := i * impix + j;
    RowAfter(q, i, j, impix);
    RowAfter(i, 3, j, impix);
    assert (q + 1) * impix == q * impix + impix;
    if i == q {
      MappedAt(Frame(es, at, q), luts, impix, j);
      assert mid[k] == WrapU32(before[k] + Mapped(Frame(es, at, q), luts, impix)[j]);
      assert before[k] + Mapped(Frame(es, at, q), luts, impix)[j] == before[k] + LutValue(Frame(es, at, i), luts, j);
      assert after[k] == mid[k];
    } else {
      RowAfter(q + 1, i, j, impix);
      assert mid[k] == before[k];
      AddedImagesAt(mid, after, es, at, luts, impix, q + 1, i, j);
      assert mid[k] + LutValue(Frame(es, at, i), luts, j) == before[k] + LutValue(Frame(es, at, i), luts, j);
    }
  }


  /** Element j of image i lies at or beyond the start of image p <= i. */
  lemma RowAfter(p: nat, i: nat, j: nat, impix: nat)
    requires p <= i && j < impix
    ensures p * impix <= i * impix + j < (i + 1) * impix
  {
    assert (i - p) * impix >= 0;
  }

  /** A group of four successful frames waits for all four, ends on a
      successful wait and leaves camera 1's half alone. */
  lemma GroupAllAccumulated(t: Totals, events: seq<QuadEvent>, at: nat, luts: seq<seq<nat>>, impix: nat)
    requires at + 4 <= |events| && |t.buf| == 8 * impix && AllAccumulated(events, at, 4)
    ensures var r := Group(t, events, at, luts, impix);
      r.1 == 4 && !r.0.aborted && r.0.lastOk &&
      (forall k :: 4 * impix <= k < 8 * impix ==> r.0.t.buf[k] == t.buf[k])
  {
    GroupFromAllAccumulated(Quad(t, 0, false, false), events, at, luts, impix, 0);
  }

  /** The same group adds frame i's table values into image i. */
  lemma GroupAllAdded(t: Totals, events: seq<QuadEvent>, at: nat, luts: seq<seq<nat>>, impix: nat)
    requires at + 4 <= |events| && |t.buf| == 8 * impix && AllAccumulated(events, at, 4)
    ensures AddedImages(t.buf, Group(t, events, at, luts, impix).0.t.buf, events, at, luts, impix, 0)
  {
    GroupFromAllAccumulated(Quad(t, 0, false, false), events, at, luts, impix, 0);
  }

  /** The sum of the table values of pixel j of quad state i over the G
      groups of four frames from frame at on. */
  function Coadded(events: seq<QuadEvent>, at: nat, luts: seq<seq<nat>>, i: nat, j: nat, G: nat): nat
    requires i < 4 && at + 4 * G <= |events|
    decreases G
  {
    if G == 0 then 0
    else LutValue(Frame(events, at, i), luts, j) + Coadded(events, at + 4, luts, i, j, G - 1)
  }

  /** Camera 0's images of after are those of before plus the sums over G
      groups, wrapping. */
  predicate SumsOf(before: seq<nat>, after: seq<nat>, events: seq<QuadEvent>, at: nat, luts: seq<seq<nat>>,
                   impix: nat, G: nat)
    requires |before| == |after| == 8 * impix && at + 4 * G <= |events|
  {
    forall i, j :: 0 <= i < 4 && 0 <= j < impix ==>
      i * impix + j < 4 * impix &&
      after[i * impix + j] == WrapU32(before[i * impix + j] + Coadded(events, at, luts, i, j, G))
  }

  lemma SumsOfAt(before: seq<nat>, after: seq<nat>, events: seq<QuadEvent>, at: nat, luts: seq<seq<nat>>,
                 impix: nat, G: nat, i: nat, j: nat)
    requires |before| == |after| == 8 * impix && at + 4 * G <= |events|
    requires SumsOf(before, after, events, at, luts, impix, G) && i < 4 && j < impix
    ensures after[i * impix + j] == WrapU32(before[i * impix + j] + Coadded(events, at, luts, i, j, G))
  {
  }

  /** One group of frames added to before, then G - 1 more groups. */
  lemma SumsStep(before: seq<nat>, mid: seq<nat>, after: seq<nat>, events: seq<QuadEvent>, at: nat,
                 luts: seq<seq<nat>>, impix: nat, G: nat)
    requires |before| == |mid| == |after| == 8 * impix && G >= 1 && at + 4 * G <= |events|
    requires AddedImages(before, mid, events, at, luts, impix, 0)
    requires G == 1 ==> mid == after
    requires G > 1 ==> SumsOf(mid, after, events, at + 4, luts, impix, G - 1)
    ensures SumsOf(before, after, events, at, luts, impix, G)
  {
    forall i, j | 0 <= i < 4 && 0 <= j < impix
      ensures i * impix + j < 4 * impix
      ensures after[i * impix + j] == WrapU32(before[i * impix + j] + Coadded(events, at, luts, i, j, G))
    {
      SumsStepAt(before, mid, after, events, at, luts, impix, G, i, j);
    }
  }

  lemma SumsStepAt(before: seq<nat>, mid: seq<nat>, after: seq<nat>, events: seq<QuadEvent>, at: nat,
                   luts: seq<seq<nat>>, impix: nat, G: nat, i: nat, j: nat)
    requires |before| == |mid| == |after| == 8 * impix && G >= 1 && at + 4 * G <= |events|
    requires AddedImages(before, mid, events, at, luts, impix, 0)
    requires G == 1 ==> mid == after
    requires G > 1 ==> SumsOf(mid, after, events, at + 4, luts, impix, G - 1)
    requires i < 4 && j < impix
    ensures i * impix + j < 4 * impix
    ensures after[i * impix + j] == WrapU32(before[i * impix + j] + Coadded(events, at, luts, i, j, G))
  {
    var k := i * impix + j;
    RowAfter(i, 3, j, impix);
    var v := LutValue(Frame(events, at, i), luts, j);
    AddedImagesAt(before, mid, events, at, luts, impix, 0, i, j);
    var rest := Coadded(events, at + 4, luts, i, j, G - 1);
    assert Coadded(events, at, luts, i, j, G) == v + rest;
    if G > 1 {
      SumsOfAt(mid, after, events, at + 4, luts, impix, G - 1, i, j);
      assert after[k] == WrapU32(mid[k] + rest);
      WrapU32AddTo(before[k] + v, rest, before[k] + Coadded(events, at, luts, i, j, G));
    } else {
      assert rest == 0;
      assert before[k] + Coadded(events, at, luts, i, j, G) == before[k] + v;
    }
  }


  /** One group of the driver's loop, then the rest of the loop. */
  lemma IntegrateLoopHead(t: Totals, lastOk: bool, events: seq<QuadEvent>, at: nat, luts: seq<seq<nat>>,
                          impix: nat, iiN: int, limit: int)
    requires iiN < limit && at + 4 * (limit - iiN) <= |events|
    ensures var g := Group(t, events, at, luts, impix);
      var next := if g.0.aborted then limit + 1 else iiN + 1;
      at + g.1 <= |events| && (next < limit ==> at + g.1 + 4 * (limit - next) <= |events|) &&
      var r := IntegrateLoop(t, lastOk, events, at, luts, impix, iiN, limit);
      var r2 := IntegrateLoop(g.0.t, g.0.lastOk, events, at + g.1, luts, impix, next, limit);
      r.0 == r2.0 && r.1 == r2.1 + g.1 && r.2 == r2.2
  {
  }

  /** The for loop over G = limit - iiN groups of successful frames waits
      for 4 * G frames and ends on a successful wait. */
  lemma {:induction false} IntegrateLoopAllOk(t: Totals, lastOk: bool, events: seq<QuadEvent>, at: nat,
                                              luts: seq<seq<nat>>, impix: nat, iiN: int, limit: int)
    requires iiN < limit && at + 4 * (limit - iiN) <= |events| && |t.buf| == 8 * impix
    requires AllAccumulated(events, at, 4 * (limit - iiN))
    ensures var r := IntegrateLoop(t, lastOk, events, at, luts, impix, iiN, limit);
      r.1 == 4 * (limit - iiN) && r.2
    decreases limit - iiN
  {
    var g := Group(t, events, at, luts, impix);
    GroupAllAccumulated(t, events, at, luts, impix);
    IntegrateLoopHead(t, lastOk, events, at, luts, impix, iiN, limit);
    if iiN + 1 < limit {
      IntegrateLoopAllOk(g.0.t, g.0.lastOk, events, at + 4, luts, impix, iiN + 1, limit);
    }
  }

  /** The same loop adds every group into camera 0's images. */
  lemma {:induction false} IntegrateLoopSum(t: Totals, lastOk: bool, events: seq<QuadEvent>, at: nat,
                                            luts: seq<seq<nat>>, impix: nat, iiN: int, limit: int)
    requires iiN < limit && at + 4 * (limit - iiN) <= |events| && |t.buf| == 8 * impix
    requires AllAccumulated(events, at, 4 * (limit - iiN))
    ensures SumsOf(t.buf, IntegrateLoop(t, lastOk, events, at, luts, impix, iiN, limit).0.buf,
                   events, at, luts, impix, limit - iiN)
    decreases limit - iiN
  {
    var G: nat := limit - iiN;
    var g := Group(t, events, at, luts, impix);
    GroupAllAccumulated(t, events, at, luts, impix);
    GroupAllAdded(t, events, at, luts, impix);
    IntegrateLoopHead(t, lastOk, events, at, luts, impix, iiN, limit);
    var r2 := IntegrateLoop(g.0.t, g.0.lastOk, events, at + 4, luts, impix, iiN + 1, limit);
    if iiN + 1 < limit {
      IntegrateLoopSum(g.0.t, g.0.lastOk, events, at + 4, luts, impix, iiN + 1, limit);
      SumsStep(t.buf, g.0.t.buf, r2.0.buf, events, at, luts, impix, G);
    } else {
      assert r2.0 == g.0.t;
      SumsStep(t.buf, g.0.t.buf, g.0.t.buf, events, at, luts, impix, 1);
    }
  }

  /** The same loop leaves camera 1's half alone. */
  lemma {:induction false} IntegrateLoopCameraOne(t: Totals, lastOk: bool, events: seq<QuadEvent>, at: nat,
                                                  luts: seq<seq<nat>>, impix: nat, iiN: int, limit: int)
    requires at <= |events| && (iiN < limit ==> at + 4 * (limit - iiN) <= |events|) && |t.buf| == 8 * impix
    requires iiN < limit ==> AllAccumulated(events, at, 4 * (limit - iiN))
    ensures var r := IntegrateLoop(t, lastOk, events, at, luts, impix, iiN, limit);
      forall k :: 4 * impix <= k < 8 * impix ==> r.0.buf[k] == t.buf[k]
    decreases limit - iiN
  {
    if iiN < limit {
      var g := Group(t, events, at, luts, impix);
      GroupAllAccumulated(t, events, at, luts, impix);
      IntegrateLoopHead(t, lastOk, events, at, luts, impix, iiN, limit);
      IntegrateLoopCameraOne(g.0.t, g.0.lastOk, events, at + 4, luts, impix, iiN + 1, limit);
    }
  }

  /** The integration is its first group followed by the loop from iiN = 1. */
  lemma IntegrateHead(t: Totals, events: seq<QuadEvent>, luts: seq<seq<nat>>, impix: nat, numIntegrations: int)
    requires 4 * Groups(numIntegrations) <= |events|
    ensures var g := Group(t, events, 0, luts, impix);
      (1 < numIntegrations ==> g.1 + 4 * (numIntegrations - 1) <= |events|) &&
      var r := Integrate(t, events, luts, impix, numIntegrations);
      var l := IntegrateLoop(g.0.t, g.0.lastOk, events, g.1, luts, impix, 1, numIntegrations);
      r.0 == l.0 && r.1 == l.1 + g.1 && r.2 == l.2
  {
  }

  /** Every frame succeeds: the integration waits for 4 * N frames
      (N = NumIntegrations, or one group if that is below 1), ends on a
      successful wait, and adds the N groups into camera 0's images. */
  lemma IntegrateSums(t: Totals, events: seq<QuadEvent>, luts: seq<seq<nat>>, impix: nat, numIntegrations: int)
    requires 4 * Groups(numIntegrations) <= |events| && |t.buf| == 8 * impix
    requires AllAccumulated(events, 0, 4 * Groups(numIntegrations))
    ensures var r := Integrate(t, events, luts, impix, numIntegrations);
      r.1 == 4 * Groups(numIntegrations) && r.2 &&
      SumsOf(t.buf, r.0.buf, events, 0, luts, impix, Groups(numIntegrations))
  {
    var N := Groups(numIntegrations);
    var g := Group(t, events, 0, luts, impix);
    GroupAllAccumulated(t, events, 0, luts, impix);
    GroupAllAdded(t, events, 0, luts, impix);
    IntegrateHead(t, events, luts, impix, numIntegrations);
    var l := IntegrateLoop(g.0.t, g.0.lastOk, events, 4, luts, impix, 1, numIntegrations);
    if numIntegrations > 1 {
      IntegrateLoopAllOk(g.0.t, g.0.lastOk, events, 4, luts, impix, 1, numIntegrations);
      IntegrateLoopSum(g.0.t, g.0.lastOk, events, 4, luts, impix, 1, numIntegrations);
      SumsStep(t.buf, g.0.t.buf, l.0.buf, events, 0, luts, impix, N);
    } else {
      assert l.0 == g.0.t && l.1 == 0 && l.2 == g.0.lastOk;
      SumsStep(t.buf, g.0.t.buf, g.0.t.buf, events, 0, luts, impix, 1);
    }
  }

  /** Starting from a zeroed buffer (as the program allocates it and as the
      writer leaves it), every element of camera 0's images ends as the
      uint32 sum of its N table values, and camera 1's half stays zero. */
  lemma IntegrateFromZero(lag: nat, events: seq<QuadEvent>, luts: seq<seq<nat>>, impix: nat, numIntegrations: int)
    requires 4 * Groups(numIntegrations) <= |events|
    requires AllAccumulated(events, 0, 4 * Groups(numIntegrations))
    ensures var r := Integrate(Totals(Zeroes(8 * impix), lag), events, luts, impix, numIntegrations);
      r.1 == 4 * Groups(numIntegrations) && r.2 &&
      CoaddedImages(r.0.buf, events, luts, impix, Groups(numIntegrations)) &&
      (forall k :: 4 * impix <= k < 8 * impix ==> r.0.buf[k] == 0)
  {
    var t := Totals(Zeroes(8 * impix), lag);
    IntegrateSums(t, events, luts, impix, numIntegrations);
    var r := Integrate(t, events, luts, impix, numIntegrations);
    SumsFromZero(r.0.buf, events, luts, impix, Groups(numIntegrations));
    IntegrateCameraOne(t, events, luts, impix, numIntegrations);
  }

  /** Image i of camera 0 holds, wrapped to 32 bits, the sum over the G
      groups from frame 0 on of the table values of their frames i. */
  predicate CoaddedImages(buf: seq<nat>, events: seq<QuadEvent>, luts: seq<seq<nat>>, impix: nat, G: nat)
    requires |buf| == 8 * impix && 4 * G <= |events|
  {
    forall i, j :: 0 <= i < 4 && 0 <= j < impix ==>
      i * impix + j < 4 * impix && buf[i * impix + j] == WrapU32(Coadded(events, 0, luts, i, j, G))
  }

  lemma SumsFromZero(after: seq<nat>, events: seq<QuadEvent>, luts: seq<seq<nat>>, impix: nat, G: nat)
    requires |after| == 8 * impix && 4 * G <= |events|
    requires SumsOf(Zeroes(8 * impix), after, events, 0, luts, impix, G)
    ensures CoaddedImages(after, events, luts, impix, G)
  {
    forall i, j | 0 <= i < 4 && 0 <= j < impix
      ensures i * impix + j < 4 * impix && after[i * impix + j] == WrapU32(Coadded(events, 0, luts, i, j, G))
    {
      SumsOfAt(Zeroes(8 * impix), after, events, 0, luts, impix, G, i, j);
      RowAfter(i + 1, 4, 0, impix);
      RowAfter(i, i, j, impix);
    }
  }

  /** When every frame succeeds, camera 1's half is left alone. */
  lemma IntegrateCameraOne(t: Totals, events: seq<QuadEvent>, luts: seq<seq<nat>>, impix: nat, numIntegrations: int)
    requires 4 * Groups(numIntegrations) <= |events| && |t.buf| == 8 * impix
    requires AllAccumulated(events, 0, 4 * Groups(numIntegrations))
    ensures var r := Integrate(t, events, luts, impix, numIntegrations);
      forall k :: 4 * impix <= k < 8 * impix ==> r.0.buf[k] == t.buf[k]
  {
    var g := Group(t, events, 0, luts, impix);
    GroupAllAccumulated(t, events, 0, luts, impix);
    IntegrateHead(t, events, luts, impix, numIntegrations);
    IntegrateLoopCameraOne(g.0.t, g.0.lastOk, events, 4, luts, impix, 1, numIntegrations);
  }

  /** A failed first frame zeroes the buffer but does not end the
      integration: the for loop restarts iiN at 1 and still runs
      NumIntegrations - 1 full groups, so 1 + 4 * (N - 1) frames are waited
      for and the buffer holds exactly the sums of those N - 1 groups. */
  lemma FirstGroupAbortContinues(t: Totals, events: seq<QuadEvent>, luts: seq<seq<nat>>, impix: nat,
                                 numIntegrations: int)
    requires numIntegrations >= 2 && 4 * numIntegrations <= |events| && |t.buf| == 8 * impix
    requires !events[0].cleanup && events[0].status == BiFailed
    requires AllAccumulated(events, 1, 4 * (numIntegrations - 1))
    ensures var r := Integrate(t, events, luts, impix, numIntegrations);
      r.1 == 1 + 4 * (numIntegrations - 1) && r.2 &&
      SumsOf(Zeroes(8 * impix), r.0.buf, events, 1, luts, impix, numIntegrations - 1)
  {
    var b := QuadStep(Quad(t, 0, false, false), events[0], luts, impix);
    GroupFirstFails(t, events, 0, luts, impix);
    IntegrateHead(t, events, luts, impix, numIntegrations);
    IntegrateLoopAllOk(b.t, b.lastOk, events, 1, luts, impix, 1, numIntegrations);
    IntegrateLoopSum(b.t, b.lastOk, events, 1, luts, impix, 1, numIntegrations);
  }

  /** A failed frame inside the for loop ends the integration at once:
      after a full first group and one failed frame, five frames were
      waited for, the whole buffer is zero and the event is not signalled. */
  lemma LoopAbortEnds(t: Totals, events: seq<QuadEvent>, luts: seq<seq<nat>>, impix: nat, numIntegrations: int)
    requires numIntegrations >= 2 && 4 * numIntegrations <= |events| && |t.buf| == 8 * impix
    requires AllAccumulated(events, 0, 4) && !events[4].cleanup && events[4].status == BiFailed
    ensures var r := Integrate(t, events, luts, impix, numIntegrations);
      r.1 == 5 && r.0.buf == Zeroes(8 * impix) && !r.2
  {
    var g := Group(t, events, 0, luts, impix);
    GroupAllAccumulated(t, events, 0, luts, impix);
    IntegrateHead(t, events, luts, impix, numIntegrations);
    var b := QuadStep(Quad(g.0.t, 0, false, false), events[4], luts, impix);
    GroupFirstFails(g.0.t, events, 4, luts, impix);
    IntegrateLoopHead(g.0.t, g.0.lastOk, events, 4, luts, impix, 1, numIntegrations);
    var l := IntegrateLoop(b.t, b.lastOk, events, 5, luts, impix, numIntegrations + 1, numIntegrations);
    assert l.0 == b.t && l.1 == 0 && !l.2;
  }

  /** writeAvg16's narrowing of one 32-bit sum: the unsigned shift right by
      16, the unsigned subtraction of 0x8000 (wrapping below zero), and the
      cast to short, which keeps the low 16 bits as a two's-complement value. */
  function Narrow16Value(v: nat): int
    requires IsU32(v)
  {
    var shifted := v / 0x1_0000;
    var diff := WrapU32(shifted - 0x8000);
    var low := diff % 0x1_0000;
    if low >= 0x8000 then low - 0x1_0000 else low
  }

  /** The narrowed value is exactly v div 65536 - 32768: it always fits a
      short, and adding 32768 back recovers the high 16 bits. */
  lemma Narrow16Exact(v: nat)
    requires IsU32(v)
    ensures Narrow16Value(v) == v / 0x1_0000 - 0x8000
    ensures -0x8000 <= Narrow16Value(v) <= 0x7FFF
    ensures Narrow16Value(v) + 0x8000 == v / 0x1_0000
  {
    var h := v / 0x1_0000;
    assert 0 <= h < 0x1_0000;
    if h < 0x8000 {
      assert WrapU32(h - 0x8000) == h - 0x8000 + TWO32;
      assert (h - 0x8000 + TWO32) % 0x1_0000 == h + 0x8000;
    } else {
      assert WrapU32(h - 0x8000) == h - 0x8000;
    }
  }

  /** The narrowing is monotone and forgets only the low 16 bits: two sums
      narrow alike exactly when they agree above bit 15. */
  lemma Narrow16Order(v: nat, w: nat)
    requires IsU32(v) && IsU32(w)
    ensures v <= w ==> Narrow16Value(v) <= Narrow16Value(w)
    ensures Narrow16Value(v) == Narrow16Value(w) <==> v / 0x1_0000 == w / 0x1_0000
  {
    Narrow16Exact(v);
    Narrow16Exact(w);
    if v <= w {
      DivMonotone(v, w);
    }
  }

  lemma DivMonotone(v: nat, w: nat)
    requires v <= w
    ensures v / 0x1_0000 <= w / 0x1_0000
  {
  }

  /** One averaging buffer (pAvgSpaceX or pAvgSpaceY) of eight images of
      impix = 4 * impixlut 32-bit sums, its lag counter, and the 16-bit
      buffer written out. */
  class CoAddBuffer {
    const impixlut: nat
    const avg: array<nat>
    var lag: nat
    const avg16: array<int>

    function Impix(): nat {
      4 * impixlut
    }

    ghost predicate Valid()
      reads this, avg
    {
      avg.Length == 8 * Impix() && avg16.Length == 8 * Impix() && IsU32(lag) && AllU32(avg[..])
    }

    /** The buffers are allocated and zeroed, and the lag counter starts at 0. */
    constructor(impixlut: nat)
      ensures Valid() && this.impixlut == impixlut && fresh(avg) && fresh(avg16)
      ensures avg[..] == Zeroes(8 * Impix()) && lag == 0
    {
      this.impixlut := impixlut;
      avg := new nat[32 * impixlut](_ => 0);
      avg16 := new int[32 * impixlut](_ => 0);
      lag := 0;
    }

    /** The jj loop: four pixels at a time, pixel 4 * jj + t through table t. */
    method AccumulateFrame(pos: nat, e: QuadEvent, luts: seq<seq<nat>>)
      requires LutsOk(luts) && FrameOk(e, Impix()) && Accumulated(e) && pos + Impix() <= avg.Length
      modifies avg
      ensures avg[..] == AddQuads(old(avg[..]), pos, Mapped(e, luts, Impix()), impixlut)
    {
      ghost var before := avg[..];
      ghost var vals := Mapped(e, luts, Impix());
      // the write pointer and the source index are pos + 4 * jj and 4 * jj
      for jj := 0 to impixlut
        invariant avg[..] == AddQuads(before, pos, vals, jj)
      {
        LutQuadPass(pos, e, luts, jj, before);
      }
    }

    /** One pass of the jj loop: pixels 4 * jj .. 4 * jj + 3 looked up and
        added at pos + 4 * jj. */
    method LutQuadPass(pos: nat, e: QuadEvent, luts: seq<seq<nat>>, jj: nat, ghost before: seq<nat>)
      requires LutsOk(luts) && FrameOk(e, Impix()) && Accumulated(e) && pos + 4 * jj + 4 <= avg.Length && 4 * jj + 4 <= Impix()
      requires |before| == avg.Length && avg[..] == AddQuads(before, pos, Mapped(e, luts, Impix()), jj)
      modifies avg
      ensures avg[..] == AddQuads(before, pos, Mapped(e, luts, Impix()), jj + 1)
    {
        ghost var cur := avg[..];
        var v0, v1, v2, v3 := LookUpQuad(e, luts, Impix(), jj);
        AddQuad(pos + 4 * jj, v0, v1, v2, v3);
        AddQuadsNext(before, pos, Mapped(e, luts, Impix()), jj, cur, avg[..]);
    }

    /** Four pixels of the jj loop: table values added into elements
        k..k+3, wrapping. */
    method AddQuad(k: nat, v0: nat, v1: nat, v2: nat, v3: nat)
      requires k + 4 <= avg.Length
      modifies avg
      ensures avg[..] == AddFour(old(avg[..]), k, v0, v1, v2, v3)
    {
      avg[k] := WrapU32(avg[k] + v0);
      avg[k + 1] := WrapU32(avg[k + 1] + v1);
      avg[k + 2] := WrapU32(avg[k + 2] + v2);
      avg[k + 3] := WrapU32(avg[k + 3] + v3);
    }

    /** The error branch: all eight images are reset to zero. */
    method ZeroBuffer()
      requires Valid()
      modifies avg
      ensures Valid() && avg[..] == Zeroes(avg.Length)
    {
      for ll := 0 to avg.Length
        invariant forall k :: 0 <= k < ll ==> avg[k] == 0
        invariant forall k :: 0 <= k < avg.Length ==> IsU32(avg[k])
      {
        avg[ll] := 0;
      }
    }

    /** The body of the iiQ loop for one wait, as QuadStep says. */
    method QuadBody(pos: nat, e: QuadEvent, luts: seq<seq<nat>>, ghost prevOk: bool)
      returns (newPos: nat, aborted: bool, ok: bool)
      requires Valid() && LutsOk(luts) && FrameOk(e, Impix()) && IsU32(e.queued) && pos + Impix() <= avg.Length
      modifies this, avg
      ensures Valid()
      ensures var b := QuadStep(Quad(old(Totals(avg[..], lag)), pos, false, prevOk), e, luts, Impix());
        avg[..] == b.t.buf && lag == b.t.lag && newPos == b.pos && aborted == b.aborted && ok == b.lastOk
    {
      newPos := pos;
      aborted := false;
      if e.queued != 0 {
        lag := WrapU32(lag + e.queued);
      }
      if !e.cleanup {
        if e.status == BiOk {
          AddQuadsFrame(avg[..], pos, Mapped(e, luts, Impix()), impixlut);
          AccumulateFrame(pos, e, luts);
          newPos := pos + Impix();
        } else {
          ZeroBuffer();
          aborted := true;
        }
      }
      ok := e.status == BiOk;
    }

    /** One inclusion of GetImgAndApplyLut0, on the waits from frame at on:
        up to four waits, as Group says. */
    method AccumulateGroup(events: seq<QuadEvent>, at: nat, luts: seq<seq<nat>>)
      returns (used: nat, aborted: bool, lastOk: bool)
      requires Valid() && LutsOk(luts) && at + 4 <= |events| && EventsOk(events, Impix())
      modifies this, avg
      ensures Valid()
      ensures var g := Group(old(Totals(avg[..], lag)), events, at, luts, Impix());
        avg[..] == g.0.t.buf && lag == g.0.t.lag && used == g.1 && aborted == g.0.aborted && lastOk == g.0.lastOk
    {
      ghost var spec := Group(Totals(avg[..], lag), events, at, luts, Impix());
      var pos: nat := 0;
      var q: nat := 0;
      used := 0;
      aborted := false;
      lastOk := false;
      while q < 4
        invariant q <= 4 && used <= q && (!aborted ==> used == q) && (aborted ==> q == 4) && pos <= q * Impix()
        invariant Valid() && used <= spec.1
        invariant GroupFrom(Quad(Totals(avg[..], lag), pos, aborted, lastOk), events, at + used, luts, Impix(), q).0
          == spec.0
        invariant GroupFrom(Quad(Totals(avg[..], lag), pos, aborted, lastOk), events, at + used, luts, Impix(), q).1
          == spec.1 - used
        decreases 4 - q
      {
        ghost var cur := Quad(Totals(avg[..], lag), pos, aborted, lastOk);
        ghost var n0, q0 := at + used, q;
        OffsetRoom(pos, q, Impix());
        var e := events[at + used];
        pos, aborted, lastOk := QuadBody(pos, e, luts, lastOk);
        used := used + 1;
        if aborted {
          q := 4;
        } else {
          q := q + 1;
        }
        GroupFromNext(cur, events, n0, luts, Impix(), q0, Quad(Totals(avg[..], lag), pos, aborted, lastOk), at + used, q);
      }
    }

    /** The AvgingProgramCam0 integration of one buffer: one group, then
        the for loop from iiN = 1 below NumIntegrations. ready says whether
        the buffer-ready event is set (the last wait was BI_OK). */
    method RunIntegration(events: seq<QuadEvent>, luts: seq<seq<nat>>, numIntegrations: int)
      returns (used: nat, ready: bool)
      requires Valid() && LutsOk(luts) && EventsOk(events, Impix())
      requires 4 * Groups(numIntegrations) <= |events|
      modifies this, avg
      ensures Valid()
      ensures var r := Integrate(old(Totals(avg[..], lag)), events, luts, Impix(), numIntegrations);
        avg[..] == r.0.buf && lag == r.0.lag && used == r.1 && ready == r.2
    {
      ghost var t0 := Totals(avg[..], lag);
      IntegrateHead(t0, events, luts, Impix(), numIntegrations);
      var aborted, lastOk;
      used, aborted, lastOk := AccumulateGroup(events, 0, luts);
      var rest;
      rest, ready := IntegrateRest(events, used, luts, lastOk, numIntegrations);
      used := used + rest;
    }

    /** The for loop over iiN from 1 below NumIntegrations on the waits from
        frame at on, one group each; a group that hits a failed frame sets
        iiN to the limit, which ends the loop. */
    method IntegrateRest(events: seq<QuadEvent>, at: nat, luts: seq<seq<nat>>, lastOk0: bool, iiNlimit: int)
      returns (used: nat, lastOk: bool)
      requires Valid() && LutsOk(luts) && EventsOk(events, Impix())
      requires at <= |events| && (1 < iiNlimit ==> at + 4 * (iiNlimit - 1) <= |events|)
      modifies this, avg
      ensures Valid()
      ensures var r := IntegrateLoop(old(Totals(avg[..], lag)), lastOk0, events, at, luts, Impix(), 1, iiNlimit);
        avg[..] == r.0.buf && lag == r.0.lag && used == r.1 && lastOk == r.2
    {
      ghost var spec := IntegrateLoop(Totals(avg[..], lag), lastOk0, events, at, luts, Impix(), 1, iiNlimit);
      var next := at;
      lastOk := lastOk0;
      var iiN := 1;
      while iiN < iiNlimit
        invariant Valid() && at <= next <= |events|
        invariant iiN < iiNlimit ==> next + 4 * (iiNlimit - iiN) <= |events|
        invariant var r := IntegrateLoop(Totals(avg[..], lag), lastOk, events, next, luts, Impix(), iiN, iiNlimit);
          r.0 == spec.0 && r.1 + (next - at) == spec.1 && r.2 == spec.2
        decreases iiNlimit - iiN
      {
        next, lastOk, iiN := IntegrateOnce(events, next, luts, lastOk, iiN, iiNlimit);
      }
      used := next - at;
    }

    /** One pass of the driver's for loop: a group from frame at on, then
        iiN advances, or jumps past NumIntegrations after an abort. The
        next group starts at frame next. */
    method IntegrateOnce(events: seq<QuadEvent>, at: nat, luts: seq<seq<nat>>, lastOk0: bool, iiN0: int, iiNlimit: int)
      returns (next: nat, lastOk: bool, iiN: int)
      requires Valid() && LutsOk(luts) && EventsOk(events, Impix())
      requires iiN0 < iiNlimit && at + 4 * (iiNlimit - iiN0) <= |events|
      modifies this, avg
      ensures Valid() && iiN0 < iiN && at <= next <= |events| && (iiN < iiNlimit ==> next + 4 * (iiNlimit - iiN) <= |events|)
      ensures var r := IntegrateLoop(old(Totals(avg[..], lag)), lastOk0, events, at, luts, Impix(), iiN0, iiNlimit);
        var r2 := IntegrateLoop(Totals(avg[..], lag), lastOk, events, next, luts, Impix(), iiN, iiNlimit);
        r.0 == r2.0 && r.1 == r2.1 + (next - at) && r.2 == r2.2
    {
      ghost var t0 := Totals(avg[..], lag);
      var u, aborted;
      u, aborted, lastOk := AccumulateGroup(events, at, luts);
      next := at + u;
      iiN := iiN0;
      if aborted {
        iiN := iiNlimit;
      }
      iiN := iiN + 1;
      IntegrateLoopNext(t0, lastOk0, events, at, luts, Impix(), iiN0, iiNlimit, Totals(avg[..], lag), lastOk, next, iiN);
    }

    /** writeAvg16's loop: every element of the 16-bit buffer is the
        narrowed 32-bit sum; the 32-bit buffer is only read. */
    method Narrow16()
      requires Valid()
      modifies avg16
      ensures Valid()
      ensures forall k :: 0 <= k < avg16.Length ==> avg16[k] == Narrow16Value(avg[k])
    {
      for ll := 0 to avg.Length
        invariant forall k :: 0 <= k < ll ==> avg16[k] == Narrow16Value(avg[k])
      {
        avg16[ll] := Narrow16Value(avg[ll]);
      }
    }
  }

  /** One pass of the driver's for loop, stated on the state after it. */
  lemma IntegrateLoopNext(t: Totals, lastOk: bool, events: seq<QuadEvent>, at: nat, luts: seq<seq<nat>>,
                          impix: nat, iiN: int, limit: int, t2: Totals, lastOk2: bool, at2: nat, iiN2: int)
    requires iiN < limit && at + 4 * (limit - iiN) <= |events|
    requires var g := Group(t, events, at, luts, impix);
      t2 == g.0.t && lastOk2 == g.0.lastOk && at2 == at + g.1 && iiN2 == (if g.0.aborted then limit else iiN) + 1
    ensures at2 <= |events| && (iiN2 < limit ==> at2 + 4 * (limit - iiN2) <= |events|)
    ensures var r := IntegrateLoop(t, lastOk, events, at, luts, impix, iiN, limit);
      var r2 := IntegrateLoop(t2, lastOk2, events, at2, luts, impix, iiN2, limit);
      r.0 == r2.0 && r.1 == r2.1 + (at2 - at) && r.2 == r2.2
  {
    IntegrateLoopHead(t, lastOk, events, at, luts, impix, iiN, limit);
  }

  /** One more wait of the quad loop, stated on the state after it: an
      abort ends the loop as if quad 3 had been passed. */
  lemma GroupFromNext(a: Quad, events: seq<QuadEvent>, n: nat, luts: seq<seq<nat>>, impix: nat, q: nat,
                      b: Quad, n2: nat, q2: nat)
    requires q < 4 && n + (4 - q) <= |events| && !a.aborted
    requires var s := QuadStep(a, events[n], luts, impix);
      b.t.buf == s.t.buf && b.t.lag == s.t.lag && b.pos == s.pos && b.aborted == s.aborted && b.lastOk == s.lastOk
    requires n2 == n + 1 && q2 == if b.aborted then 4 else q + 1
    ensures q2 <= 4 && n2 + (4 - q2) <= |events|
    ensures GroupFrom(a, events, n, luts, impix, q).0 == GroupFrom(b, events, n2, luts, impix, q2).0
    ensures GroupFrom(a, events, n, luts, impix, q).1 == GroupFrom(b, events, n2, luts, impix, q2).1 + 1
  {
    GroupFromUnfold(a, events, n, luts, impix, q);
    if b.aborted {
      GroupFromAborted(b, events, n2, luts, impix, q + 1);
    }
  }

  /** One more wait of the quad loop, on the frame at index n. */
  lemma GroupFromUnfold(a: Quad, events: seq<QuadEvent>, n: nat, luts: seq<seq<nat>>, impix: nat, q: nat)
    requires q < 4 && n + (4 - q) <= |events| && !a.aborted
    ensures var b := QuadStep(a, events[n], luts, impix);
      GroupFrom(a, events, n, luts, impix, q).0 == GroupFrom(b, events, n + 1, luts, impix, q + 1).0 &&
      GroupFrom(a, events, n, luts, impix, q).1 == GroupFrom(b, events, n + 1, luts, impix, q + 1).1 + 1
  {
  }

  lemma GroupFromAborted(a: Quad, events: seq<QuadEvent>, n: nat, luts: seq<seq<nat>>, impix: nat, q: nat)
    requires q <= 4 && n + (4 - q) <= |events| && a.aborted
    ensures GroupFrom(a, events, n, luts, impix, q).0 == a == GroupFrom(a, events, n, luts, impix, 4).0
    ensures GroupFrom(a, events, n, luts, impix, q).1 == 0 == GroupFrom(a, events, n, luts, impix, 4).1
  {
  }

  /** Four values added, wrapping, into elements k..k+3 of a. */
  function AddFour(a: seq<nat>, k: nat, v0: nat, v1: nat, v2: nat, v3: nat): (r: seq<nat>)
    requires k + 4 <= |a|
  {
    seq(|a|, x requires 0 <= x < |a| =>
      if x == k then WrapU32(a[x] + v0) else if x == k + 1 then WrapU32(a[x] + v1)
      else if x == k + 2 then WrapU32(a[x] + v2) else if x == k + 3 then WrapU32(a[x] + v3) else a[x])
  }

  /** The jj loop's view of a frame: buf with the first m groups of four
      values added, group jj at [pos + 4 * jj, pos + 4 * jj + 4). */
  function AddQuads(buf: seq<nat>, pos: nat, vals: seq<nat>, m: nat): (r: seq<nat>)
    ensures |r| == |buf|
  {
    if m == 0 then buf
    else
      var a := AddQuads(buf, pos, vals, m - 1);
      var n := 4 * (m - 1);
      if pos + n + 4 <= |a| && n + 4 <= |vals| then AddFour(a, pos + n, vals[n], vals[n + 1], vals[n + 2], vals[n + 3])
      else a
  }

  /** One more pass of the jj loop, stated on the buffers before and after it. */
  lemma AddQuadsNext(buf: seq<nat>, pos: nat, vals: seq<nat>, jj: nat, cur: seq<nat>, next: seq<nat>)
    requires pos + 4 * jj + 4 <= |buf| && 4 * jj + 4 <= |vals| && cur == AddQuads(buf, pos, vals, jj)
    requires next == AddFour(cur, pos + 4 * jj, vals[4 * jj], vals[4 * jj + 1], vals[4 * jj + 2], vals[4 * jj + 3])
    ensures next == AddQuads(buf, pos, vals, jj + 1)
  {
  }

  /** After m groups of four, every element of [pos, pos + 4 * m) has gained
      its value and every other element is unchanged. */
  lemma {:induction false} AddQuadsAt(buf: seq<nat>, pos: nat, vals: seq<nat>, m: nat, k: nat)
    requires pos + 4 * m <= |buf| && 4 * m <= |vals| && k < |buf|
    ensures AddQuads(buf, pos, vals, m)[k] == if pos <= k < pos + 4 * m then WrapU32(buf[k] + vals[k - pos]) else buf[k]
  {
    if m > 0 {
      AddQuadsAt(buf, pos, vals, m - 1, k);
    }
  }

  /** Four values at a time add the same as the whole frame at once. */
  lemma AddQuadsFrame(buf: seq<nat>, pos: nat, vals: seq<nat>, m: nat)
    requires 4 * m == |vals| && pos + |vals| <= |buf|
    ensures AddQuads(buf, pos, vals, m) == AddFrame(buf, pos, vals)
  {
    forall k | 0 <= k < |buf| ensures AddQuads(buf, pos, vals, m)[k] == AddFrame(buf, pos, vals)[k] {
      AddQuadsAt(buf, pos, vals, m, k);
    }
  }

  /** The table values of pixels 4 * jj .. 4 * jj + 3: pixel 4 * jj + t is
      looked up in table t. */
  method LookUpQuad(e: QuadEvent, luts: seq<seq<nat>>, impix: nat, jj: nat) returns (v0: nat, v1: nat, v2: nat, v3: nat)
    requires LutsOk(luts) && FrameOk(e, impix) && Accumulated(e) && 4 * jj + 4 <= impix
    ensures v0 == Mapped(e, luts, impix)[4 * jj] && v1 == Mapped(e, luts, impix)[4 * jj + 1]
    ensures v2 == Mapped(e, luts, impix)[4 * jj + 2] && v3 == Mapped(e, luts, impix)[4 * jj + 3]
  {
    TableValues(e, luts, impix, jj);
    var n := 4 * jj;
    MappedAt(e, luts, impix, n);
    MappedAt(e, luts, impix, n + 1);
    MappedAt(e, luts, impix, n + 2);
    MappedAt(e, luts, impix, n + 3);
    v0, v1, v2, v3 := luts[0][e.pixels[n]], luts[1][e.pixels[n + 1]], luts[2][e.pixels[n + 2]], luts[3][e.pixels[n + 3]];
  }

  /** The four pixels 4 * jj + t of an accumulated frame are looked up in table t. */
  lemma TableValues(e: QuadEvent, luts: seq<seq<nat>>, impix: nat, jj: nat)
    requires LutsOk(luts) && FrameOk(e, impix) && Accumulated(e) && 4 * jj + 4 <= impix
    ensures var n := 4 * jj;
      n + 4 <= |e.pixels| &&
      e.pixels[n] < |luts[0]| && e.pixels[n + 1] < |luts[1]| && e.pixels[n + 2] < |luts[2]| && e.pixels[n + 3] < |luts[3]| &&
      luts[0][e.pixels[n]] == LutValue(e, luts, n) && luts[1][e.pixels[n + 1]] == LutValue(e, luts, n + 1) &&
      luts[2][e.pixels[n + 2]] == LutValue(e, luts, n + 2) && luts[3][e.pixels[n + 3]] == LutValue(e, luts, n + 3)
  {
    TableOf(jj);
    var n := 4 * jj;
    assert e.pixels[n] < LUTSZ && e.pixels[n + 1] < LUTSZ && e.pixels[n + 2] < LUTSZ && e.pixels[n + 3] < LUTSZ;
  }

  /** Pixel 4 * jj + t uses table t. */
  lemma TableOf(jj: nat)
    ensures (4 * jj) % 4 == 0 && (4 * jj + 1) % 4 == 1 && (4 * jj + 2) % 4 == 2 && (4 * jj + 3) % 4 == 3
  {
  }
}

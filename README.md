# K-Cor pipeline core, modelled in Dafny

This project models the integer and string logic of the K-Cor coronagraph
pipeline at the Mauna Loa Solar Observatory (MLSO). It covers:

- **The stream averager** (`read_stream.dfy`, `aerosol.dfy`, `stats.dfy`).
  - Raw camera codes are linearised through one lookup table per ADC channel.
  - Each camera's files are placed into a stack of exposures.
  - Each pixel is reduced to a mean, a median and an aerosol-filtered estimate. The filter keeps the samples near the median. It uses their mean when more than 90% of the samples survive, and the unfiltered mean otherwise.
  - The corona combination of the four modulator states.
  - The floating-point tests of the filter are restated exactly over integers:
    - `d < 4/44·sqrt(44)·sqrt(m)` becomes `44·d² < 16·m`;
    - `count > 0.9·numsum` becomes `10·count > 9·numsum`.
  - The uint32 wrap-around of `frames - median` is kept, and so is the uint32 arithmetic of the corona's differences, squares and sum.
- **The acquisition-side co-adding buffer** of the averaging program (`coadd.dfy`).
  - Each group of four quad-state frames is mapped through camera 0's tables (pixel j uses table j mod 4).
  - The result is added into an eight-image 32-bit buffer.
  - A failed wait zeroes the buffer and ends the group. It ends the integration only inside the loop: after a failure in the first group the remaining groups still run.
  - The driver runs one group, then `NumIntegrations − 1` more.
  - The 32→16-bit narrowing that precedes writing.
- **The `_kcor.bin` path format** of the 16-bit average file (`avg_filename.dfy`).
- **The camera command state machine** of the socket server (`cam_command.dfy`, `cam_control.dfy`). A command string `"<prog> <verb> [N q dump]"` becomes a desired program and status. Then the loaded program is stopped, closed, opened or started. The BitFlow board calls are reduced to their assignments of `CamProgram`/`CamProgramStatus`, and a log of the board actions taken.
- **The batched integer matrix–vector multiply** of the IDL DLM (`matvec.dfy`). Each element type's arithmetic is the two's-complement wrap-around a typical compiler produces, and the dispatch on the array type is modelled.
- **The 4-byte swap** (`byteswap.dfy`).
- **The MLSO database ingesters** (`ingest_events.dfy`, `json_alerts.dfy`, `mlso_db.dfy`, with `calendar.dfy`, `strptime.dfy`, `py_str.dfy` and `json.dfy` below them).
  - The analyst event-log rows: the loose time expressions, the row filter, the event-type classification and the confidence level.
  - The JSON alert documents, dispatched by alert type to four record shapes.
  - `get_obsday`, the lookup-or-insert of the observing day ten hours before an instant.
  - The database is two tables held as values.
  - Python exceptions are `Result` errors.

Imperative source code is modelled by methods over arrays or classes:
- `apply_lut`, `read_time` and `remove_aerosol`;
- the co-adding and narrowing loops;
- the state machine's globals;
- the C multiply loops;
- the database cursor.

Each such method is proved against a specification function, and the lemmas are proved about those functions. Pure code (the reductions, byteswap, the parsers and record builders) is modelled by functions.

## Model

| member | source | states |
|---|---|---|
| Common.WrapU32 | observing/socketcam/GetImgAndApplyLut0.h:41-44 | A 32-bit unsigned `+=` result: it lies in [0, 2^32), is congruent to the exact value modulo 2^32, and equals it when no overflow happens |
| Common.WrapU32Add | observing/socketcam/GetImgAndApplyLut0.h:41-44 | Wrapping after each addition gives the same total as wrapping once at the end |
| SampleStats.SumBounds | stream/read_stream.py:135 | A sum of samples in [lo, hi] lies between lo·n and hi·n |
| SampleStats.MeanWithin | stream/read_stream.py:135 | The truncated mean of samples in [lo, hi] lies in [lo, hi], so the cast back to the frame type keeps it |
| SampleStats.MeanConstant | stream/read_stream.py:135 | The mean of n copies of v is v |
| SampleStats.Mean | stream/read_stream.py:135 | The mean is the truncated average: mean·n ≤ Σ < (mean+1)·n |
| SampleStats.Sort | stream/read_stream.py:136 | The ordering used by the median is sorted and a permutation of the samples |
| SampleStats.InsertCount | stream/read_stream.py:136 | Inserting into a sorted sequence adds exactly that element to the multiset |
| SampleStats.SortOfSorted | stream/read_stream.py:136 | Sorting an already sorted sequence changes nothing |
| SampleStats.MedianWithin | stream/read_stream.py:121-123 | The median of samples in [lo, hi] lies in [lo, hi] |
| SampleStats.MedianConstant | stream/read_stream.py:121-123 | The median of n copies of v is v |
| SampleStats.MedianBetweenMiddle | stream/read_stream.py:121-123 | The median lies between the two middle samples, and for an even count it is their average truncated (twice the median is their sum or one less) |
| SampleStats.Median | stream/read_stream.py:136 | The median lies between the two middle elements of the sorted samples |
| AerosolFilter.InlierIff | stream/read_stream.py:139-153 | For a median below 2^31, x is an inlier iff m ≤ x and 44·(x−m)² < 16·m; a median of 0 admits no inlier |
| AerosolFilter.WrappedSampleBelowMedianKept | stream/read_stream.py:153 | Because the difference wraps, a sample below a median near 2^32 can be kept: 0 is an inlier for median 2^32−1 |
| AerosolFilter.InliersAreInliers | stream/read_stream.py:153 | Every sample `np.where` keeps passes the test, and kept samples stay inside any bounds of the pixel's samples |
| AerosolFilter.InliersAll | stream/read_stream.py:153 | When every sample passes, all samples are kept in order |
| AerosolFilter.InliersNone | stream/read_stream.py:153 | When no sample passes, none is kept |
| AerosolFilter.Inliers | stream/read_stream.py:153 | `np.where` keeps no more samples than the pixel has |
| AerosolFilter.InliersMultiset | stream/read_stream.py:153-155 | The kept samples are exactly the passing ones: each passing value is kept as often as it occurs among the samples and no other value is kept, so `np.mean(x[ind])` averages exactly what `np.where` selects |
| AerosolFilter.InliersComplete | stream/read_stream.py:153-154 | `ind[0].size` counts exactly the indices whose sample passes the test |
| AerosolFilter.PixelEstimate | stream/read_stream.py:152-157 | The corrected pixel lies between the smallest and the largest sample |
| AerosolFilter.ZeroVariance | stream/read_stream.py:152-157 | A pixel whose samples all equal a 32-bit V is corrected to V, on whichever branch is taken |
| AerosolFilter.EstimateWithin | stream/read_stream.py:154-157 | The corrected value lies within the range of the pixel's samples |
| AerosolFilter.FilteredNotBelowMedian | stream/read_stream.py:153-155 | On the filtered branch (median below 2^31) the corrected value is at least the median, since only samples at or above it are kept |
| AerosolFilter.SpikeRejected | stream/read_stream.py:152-157 | Ten samples of 100 and one of 10000: the filter gives 100 where the plain mean is 1000 |
| AerosolFilter.FallbackTaken | stream/read_stream.py:140-157 | Nine samples of 100 and one of 10000: 9 of 10 inliers is not more than 90%, so the unfiltered mean 1090 is used |
| AerosolFilter.OneSpikeMedian | stream/read_stream.py:136 | One spike among at least two samples of 100 leaves the median at 100 |
| ReadStream.ApplyLut | stream/read_stream.py:59-71 | Fails (out of range) iff some raw code lies outside its channel's table; otherwise keeps the shape and element k is `lut[(k mod width) mod N_ADC][raw[k]]`; identity tables give the image back |
| ReadStream.ReadTime | stream/read_stream.py:92-105 | Succeeds iff every file reshapes and indexes inside its tables, and camera 1 has no more files than camera 0 (with N_IMAGES_PER_FILE = 1 a surplus camera-1 file broadcasts into an empty slice and is allowed). On success `numsum` is the camera-0 file count times N_IMAGES_PER_FILE, the stack has `numsum` exposures of every camera, and file i of camera c fills exactly exposure slots [i·N, (i+1)·N) with its linearised images |
| ReadStream.SurplusCameraOneFile | stream/read_stream.py:93-103 | One camera-1 file and no camera-0 file is readable iff N_IMAGES_PER_FILE = 1 |
| ReadStream.ReadCamera | stream/read_stream.py:100-103 | One camera's file loop: on success every file of camera c fits its geometry and tables and its slots below numsum are filled; an early exit means the files are not readable |
| ReadStream.PlaceFile | stream/read_stream.py:102-103 | Writes file i of camera c into its N slots and leaves every other slot and camera unchanged |
| ReadStream.Column | stream/read_stream.py:153 | The samples `frames[:, c, s, h, w]` of one pixel across the exposures |
| ReadStream.NaiveSum | stream/read_stream.py:114-117 | Each pixel of the sum image is the sum of that pixel over all exposures; an empty stack gives zero images, as `np.sum` over an empty axis does |
| ReadStream.MeanImage | stream/read_stream.py:135 | Each pixel of the mean image is the truncated average of that pixel's column |
| ReadStream.MedianImage | stream/read_stream.py:121-122 | Each pixel of the median image lies between the two middle values of that pixel's sorted column |
| ReadStream.ReduceStack | stream/read_stream.py:118-135 | A reduction over axis 0 has shape (N_CAMERAS, image) and each output element is the reduction of that pixel's column |
| ReadStream.MeanOfNaiveSum | stream/read_stream.py:118-135 | The truncated mean image times numsum is the naive sum minus its remainder: mean·n ≤ sum < (mean+1)·n |
| ReadStream.ImagesWithin | stream/read_stream.py:123-136 | The mean and median images of a stack with values in [lo, hi] stay in [lo, hi] |
| ReadStream.PixelLocality | stream/read_stream.py:148-157 | Each corrected pixel depends only on `frames[:, c, s, h, w]` |
| ReadStream.RemoveAerosol | stream/read_stream.py:130-164 | Output has shape (N_CAMERAS, image), every pixel is the filter's estimate from its own column, and a uint32 stack gives uint32 output |
| ReadStream.FilterCamera | stream/read_stream.py:150-157 | The per-pixel loop of one camera fills every pixel with its estimate, given the mean and median images |
| ReadStream.EstimateOf | stream/read_stream.py:152-157 | The branch written with the precomputed mean and median images is the per-pixel estimate |
| ReadStream.EstimatesFit | stream/read_stream.py:142-157 | For a uint32 stack every estimate fits the output's uint32 type |
| ReadStream.CoronaSquared | stream/read_stream.py:108-111 | On the uint32 images remove_aerosol returns, the squared corona is the low 32 bits of `(s0−s3)² + (s1−s2)²`; while that sum does not wrap (all states below 46341 suffice) it is zero iff s0 = s3 and s1 = s2 |
| ReadStream.CoronaImage | stream/read_stream.py:108-111 | Over a four-state image the squared corona has one uint32 value per pixel |
| ReadStream.CoronaImageZero | stream/read_stream.py:108-111 | Where the four states lie below 46341 the corona image is zero exactly where states 0/3 and 1/2 agree |
| ReadStream.CoronaNoWrap | stream/read_stream.py:111 | States below 46341 give a squared sum below 2^32, so numpy's uint32 arithmetic does not wrap |
| ReadStream.CoronaWraps | stream/read_stream.py:111 | The uint32 arithmetic wraps: states 65536, 0, 0, 0 give 0 although states 0 and 3 differ |
| CoAdd.QuadStepCases | observing/socketcam/GetImgAndApplyLut0.h:12-89 | One wait: the queued count is added to the lag; a cleanup frame changes nothing; a good frame adds `lut[j mod 4][pixel j]` into element pos+j with 32-bit wrap, advances pos by impix and leaves the rest alone; a failed frame zeroes the whole buffer and aborts |
| CoAdd.QuadStep | observing/socketcam/GetImgAndApplyLut0.h:12-89 | One wait keeps the buffer's size |
| CoAdd.Group | observing/socketcam/GetImgAndApplyLut0.h:6-91 | A group uses between one and four waits and keeps the buffer's size |
| CoAdd.Integrate | observing/socketcam/threadsforavging.h:58-75 | An integration uses at least one wait and at most four per group, with max(NumIntegrations, 1) groups, and keeps the buffer's size |
| CoAdd.GroupCameraOne | observing/socketcam/GetImgAndApplyLut0.h:40-45 | After one group camera 1's half [4·impix, 8·impix) is untouched, unless the group aborted and zeroed everything |
| CoAdd.GroupFirstFails | observing/socketcam/GetImgAndApplyLut0.h:63-88 | A failed first wait ends the group at once (`iiQ = 4`) with a zeroed buffer |
| CoAdd.GroupAllAccumulated | observing/socketcam/GetImgAndApplyLut0.h:6-45 | Four good frames use four waits, do not abort, and leave camera 1's half alone |
| CoAdd.GroupAllAdded | observing/socketcam/GetImgAndApplyLut0.h:6-45 | After four good frames element q·impix + j has gained the table value of pixel j of frame q, restarting at `pAvgSpace` |
| CoAdd.IntegrateSums | observing/socketcam/threadsforavging.h:58-68 | With good frames, one group plus NumIntegrations−1 loop groups make each camera-0 element the wrapped sum of its NumIntegrations table values on top of the old contents, and the buffer is declared ready |
| CoAdd.IntegrateFromZero | observing/socketcam/threadsforavging.h:58-68 | From a zeroed buffer each camera-0 element becomes the uint32 sum of NumIntegrations table values, and camera 1's half stays 0 (the buffer is zeroed at socketcam.c lines 286-289) |
| CoAdd.IntegrateCameraOne | observing/socketcam/socketcam.c:276-279 | A full integration by camera 0 never writes camera 1's half |
| CoAdd.FirstGroupAbortContinues | observing/socketcam/threadsforavging.h:58-68 | A failure in the first group does not end the integration: the `for` resets iiN to 1, so the remaining groups are summed into the zeroed buffer and it is declared ready |
| CoAdd.LoopAbortEnds | observing/socketcam/threadsforavging.h:68-75 | A failure inside the loop leaves the buffer zero, ends the loop, and the buffer is not declared ready |
| CoAdd.IntegrateLoopAllOk | observing/socketcam/threadsforavging.h:68-72 | Good waits: the loop consumes four waits per integration and ends with the last wait OK |
| CoAdd.Narrow16Exact | observing/socketcam/writeAvg16.h:4-17 | The model's narrowing (an unsigned subtraction of 0x8000 from `v >> 16`, then the low 16 bits read as two's complement) equals `v div 65536 − 32768`, so it lies in [−32768, 32767] and adding 32768 back gives `v div 65536` |
| CoAdd.Narrow16Order | observing/socketcam/writeAvg16.h:4-16 | The narrowing is monotone, and two values narrow alike iff they agree above the low 16 bits |
| CoAdd.CoAddBuffer.constructor | observing/socketcam/socketcam.c:273-289 | A fresh buffer of 8·impix zeroed 32-bit elements, and a zero lag counter |
| CoAdd.CoAddBuffer.AccumulateFrame | observing/socketcam/GetImgAndApplyLut0.h:40-45 | The `jj` loop adds the four table values of each pixel quartet at `pAvg`, wrapping mod 2^32 |
| CoAdd.CoAddBuffer.ZeroBuffer | observing/socketcam/GetImgAndApplyLut0.h:82-83 | Every element of the eight-image buffer becomes 0 |
| CoAdd.CoAddBuffer.QuadBody | observing/socketcam/GetImgAndApplyLut0.h:12-89 | One wait changes the buffer, the lag and the offset as QuadStep says |
| CoAdd.CoAddBuffer.AccumulateGroup | observing/socketcam/GetImgAndApplyLut0.h:6-91 | One inclusion of the group code changes the buffer and lag as Group says and reports the waits used, the abort and the last status |
| CoAdd.CoAddBuffer.RunIntegration | observing/socketcam/threadsforavging.h:58-75 | The first group, `iiNlimit = NumIntegrations`, then the loop from iiN = 1, as Integrate says, reporting whether the buffer is ready |
| CoAdd.CoAddBuffer.Narrow16 | observing/socketcam/writeAvg16.h:14-17 | Every element of the 16-bit buffer is the narrowed 32-bit element; the 32-bit buffer is only read |
| Common.DecimalRoundTrip | observing/socketcam/writeAvg16.h:22-37 | The decimal digits printf writes for n read back as n |
| AvgFileName.TwoDigits | observing/socketcam/writeAvg16.h:35-37 | `%02d` of a value below 100 is its two digits |
| AvgFileName.FourDigits | observing/socketcam/writeAvg16.h:22-36 | `%4d` of a four-digit year is its four digits |
| AvgFileName.DateStampDigits | observing/socketcam/writeAvg16.h:22-36 | YYYYMMDD holds year+1900, mon+1 and mday |
| AvgFileName.TimeDigits | observing/socketcam/writeAvg16.h:35-37 | hhmmss holds the hour, minute and second |
| AvgFileName.FileNameRoundTrip | observing/socketcam/writeAvg16.h:35-37 | The name is 24 characters and parses back to the UTC time it came from |
| AvgFileName.FileNameInjective | observing/socketcam/writeAvg16.h:35-37 | Distinct valid UTC times give distinct file names |
| AvgFileName.FileName | observing/socketcam/writeAvg16.h:35-37 | The name is at least 24 characters and ends in `_kcor.bin` |
| AvgFileName.DirectoryLayout | observing/socketcam/writeAvg16.h:22-29 | The directory is `e:/` + YYYYMMDD of the local date + `/avg/` |
| AvgFileName.Directory | observing/socketcam/writeAvg16.h:22-29 | The directory is at least 16 characters, starts with `e:/` and ends with `/avg/` |
| AvgFileName.AvgPathSplit | observing/socketcam/writeAvg16.h:29-38 | The full path is the 16-character directory followed by a name that parses back to the UTC time |
| AvgFileName.AvgPath | observing/socketcam/writeAvg16.h:29-38 | The full path is at least 40 characters, on drive `e:/`, and ends in `_kcor.bin` |
| CamCommand.DesiredProgram | observing/socketcam/parselogic.h:8-17 | STREAM iff the command starts with "stream", AVGING iff "avging", NONE otherwise |
| CamCommand.SkipSpaces | observing/socketcam/parselogic.h:20 | `%s` of sscanf skips exactly the white space before a token |
| CamCommand.TokenEnd | observing/socketcam/parselogic.h:20 | A scanned token runs exactly to the next white space |
| CamCommand.ScanInt | observing/socketcam/parselogic.h:20-22 | A `%d` conversion consumes at least one character when it succeeds |
| CamCommand.ScanIntAt | observing/socketcam/parselogic.h:20-22 | `%d` after white space reads the value of the digit run that follows, negated after a minus sign, and stops after its last digit |
| CamCommand.ScanDecimal | observing/socketcam/parselogic.h:20-22 | `%d` reads back what printf's `%d` writes: the text of any integer n after white space, followed by a non-digit or the end, scans as n |
| CamCommand.Scan | observing/socketcam/parselogic.h:20-22 | sscanf returns at most 4; a count of 0 means no verb; the integers read are count−1 many; the verb has no white space |
| CamCommand.DesiredStatus | observing/socketcam/parselogic.h:9-40 | RUNNING iff a verb was scanned with prefix "start"; STOPPED for "stop"; GENTLESTOP for "gent"; CLOSED otherwise, including when no verb was scanned |
| CamCommand.ReadRequest | observing/socketcam/parselogic.h:8-40 | The request never asks for OPENED, and an unscanned verb asks for CLOSED |
| CamCommand.ScanTwoWords | observing/socketcam/parselogic.h:20 | "w1 w2" scans one field, the verb w2, and no integers |
| CamCommand.ReadStartAlone | observing/socketcam/parselogic.h:8-30 | "x start" with an unknown program asks for NONE/RUNNING with one field |
| CamControl.Initial | observing/socketcam/socketcam.c:159-160 | At start-up no program is loaded; as set at socketcam.c lines 51, 233 and 308, KeepRunningCam is TRUE and N/q/dump are 512/0/FALSE |
| CamControl.AfterReadFields | observing/socketcam/parselogic.h:8-40 | Reading a command changes only the desired program and status and the three integers |
| CamControl.StartDefaults | observing/socketcam/parselogic.h:20-30 | "start" with fewer than 3 fields loads 512/0/FALSE; exactly 3 forces dump FALSE; other verbs keep whatever integers sscanf read |
| CamControl.ChangeStopsFirst | observing/socketcam/parselogic.h:57-66 | A program change while one is loaded first stops then closes the boards; an unrecognised program ends at NONE/CLOSED, the statuses brdstop.h line 67 and brdclse.h lines 42-43 assign |
| CamControl.NewProgram | observing/socketcam/parselogic.h:69-130 | A new STREAM program gets 1984 buffers, AVGING 1032 and KeepRunningCam TRUE; the program becomes OPENED, or RUNNING (brdstrt.h line 45) with a new TimeStamp iff "start" was asked |
| CamControl.SameProgramStart | observing/socketcam/parselogic.h:147-160 | Same program, desired RUNNING: started, KeepRunningCam TRUE, TimeStampX = TimeStampY = TimeStamp = now |
| CamControl.SameProgramStop | observing/socketcam/parselogic.h:161-178 | Same program, desired STOPPED: stopped, KeepRunningCam FALSE, then the stream writer for STREAM or the image dump for AVGING with dump TRUE |
| CamControl.SameProgramGentleStop | observing/socketcam/parselogic.h:179-196 | GENTLESTOP clears KeepRunningCam and rewrites the desired status to STOPPED; only STREAM is stopped and written here |
| CamControl.NothingToDo | observing/socketcam/parselogic.h:201-206 | When program and status already match, only the parsed fields change |
| CamControl.StartWithoutProgram | observing/socketcam/parselogic.h:131-147 | "start" with no program from the start-up state calls the board start on boards never opened |
| CamControl.StepConsistent | observing/socketcam/parselogic.h:57-207 | Every command keeps the invariant: GENTLESTOP is never the board status, a loaded program is never CLOSED, and STREAM runs with 1984 buffers per board and AVGING with 1032 |
| CamControl.Step | observing/socketcam/parselogic.h:1-207 | After any command the loaded and desired programs are the one the command names, and the action log only grows |
| CamControl.ChangeProgram | observing/socketcam/parselogic.h:57-143 | The program change loads the desired program and only appends to the action log |
| CamControl.MatchStatus | observing/socketcam/parselogic.h:144-207 | Keeps the program; RUNNING ends running with KeepRunningCam set, STOPPED ends stopped with it cleared, GENTLESTOP clears it and asks for STOPPED, any other request changes nothing |
| CamControl.InitialConsistent | observing/socketcam/socketcam.c:159-160 | The start-up state satisfies the invariant |
| CamControl.SocketCam.constructor | observing/socketcam/socketcam.c:159-160 | The globals start in the state Initial describes |
| CamControl.SocketCam.BrdStop | observing/socketcam/brdstop.h:67 | The status becomes STOPPED |
| CamControl.SocketCam.BrdClse | observing/socketcam/brdclse.h:42-43 | The program becomes NONE and the status CLOSED |
| CamControl.SocketCam.BrdStrt | observing/socketcam/brdstrt.h:45 | The status becomes RUNNING |
| CamControl.SocketCam.ParseLogic | observing/socketcam/parselogic.h:1-207 | One command changes the globals exactly as Step says |
| CamControl.SocketCam.ReadCommand | observing/socketcam/parselogic.h:8-40 | The parsing half assigns the desired program and status and the integers |
| CamControl.SocketCam.ChangeProgramNow | observing/socketcam/parselogic.h:57-143 | The program-change branch |
| CamControl.SocketCam.OpenBoardsFor | observing/socketcam/parselogic.h:75-122 | Buffer counts, board open, the "cam ready" signal, thread creation, then OPENED |
| CamControl.SocketCam.MatchStatusNow | observing/socketcam/parselogic.h:144-200 | The status-matching branch |
| MatVec.Wrap | src/realtime/kcor.c:26-34 | The element type's wrap-around: the result lies in the type's range and is the value itself when it already fits |
| MatVec.WrapCongruent | src/realtime/kcor.c:21 | The wrapped value is congruent to the exact one modulo 2^bits |
| MatVec.WrapAdd | src/realtime/kcor.c:21 | Wrapping each `+=` gives the same result as wrapping the exact sum |
| MatVec.WindowMod | src/realtime/kcor.c:21 | The range reduction equals L + (x − L) mod 2^bits |
| MatVec.DotDepends | src/realtime/kcor.c:19-22 | A row's dot product depends only on that row of a and the n elements of b |
| MatVec.MultiplyRow | src/realtime/kcor.c:20-22 | The `col` loop leaves `result[k] = old + Σ a[col]·b[col]`, wrapped, and changes no other element |
| MatVec.MultiplyInto | src/realtime/kcor.c:17-24 | The multiply keeps the result's length |
| MatVec.MatrixVectorMultiply | src/realtime/kcor.c:17-24 | Each `result[row]` for row < m becomes its old value plus the row-major row times b, wrapped; nothing outside [0, m) is written |
| MatVec.MultiplyIntoZeros | src/realtime/kcor.c:40-48 | On a zeroed block the multiply writes exactly the m products and leaves the zeros after it |
| MatVec.ProductsEntry | src/realtime/kcor.c:17-41 | A product row is in range and congruent to the exact dot product, and it equals it when that fits the type |
| MatVec.BatchedEntry | src/realtime/kcor.c:44-49 | Element m·i + row of the batch is row `row` of block i, which uses a at n·m·i and b at n·i |
| MatVec.Batched | src/realtime/kcor.c:37-51 | The batch result has m·n_multiplies elements |
| MatVec.BlockIndependence | src/realtime/kcor.c:44-49 | Block i depends only on a-block i and b-block i |
| MatVec.BlockRowIndependence | src/realtime/kcor.c:44-49 | Each row of block i depends only on a-block i and b-block i |
| MatVec.BatchMultiply | src/realtime/kcor.c:37-51 | A fresh zero-initialised m×n_multiplies result whose blocks are the products A_i·b_i |
| MatVec.MultiplyBlock | src/realtime/kcor.c:44-49 | One batch iteration extends the finished prefix by block i and leaves the zeros after it |
| MatVec.BatchedMatrixVectorMultiply | src/realtime/kcor.c:63-105 | Dispatch on a's type: an error iff the type is not an integer type, "unsupported type" iff it has no multiply at all, otherwise the batched product |
| ByteSwap.Swap | observing/socketcam/byteswap.h:7-16 | The result is a 32-bit pattern |
| ByteSwap.SwapBytes | observing/socketcam/byteswap.h:10-15 | Byte k of the result is byte 3−k of the input |
| ByteSwap.SwapLow32 | observing/socketcam/byteswap.h:10-13 | Inputs that agree modulo 2^32 swap alike: only the low 32 bits matter |
| ByteSwap.SwapSwap | observing/socketcam/byteswap.h:10-15 | Swapping twice gives back any 32-bit value |
| ByteSwap.SwapEndianness | observing/socketcam/byteswap.h:1-15 | The big-endian bytes of the result are the little-endian bytes of the input |
| ByteSwap.WordOfBytes | observing/socketcam/byteswap.h:15 | A 32-bit value is the word of its four bytes |
| Calendar.NextDay | bin/ingest_events.py:148 | `+ timedelta(days=1)` on a calendar date stays in the calendar |
| Calendar.NextDayImmediate | bin/ingest_events.py:148 | The next day is later, and nothing lies between a day and the next |
| Calendar.PrevNext | bin/ingest_events.py:70-71 | Stepping back undoes stepping forward |
| Calendar.NextPrev | bin/ingest_events.py:70-71 | Stepping forward undoes stepping back |
| Calendar.AddDay | bin/ingest_events.py:147-171 | Adding a day fails with OverflowError exactly on 9999-12-31, and otherwise moves only the date to the next day |
| Calendar.ObsDate | bin/ingest_events.py:70-71 | `(t − 10 h).date()`: the same date from 10:00 on, the previous day before, OverflowError before 10:00 on 0001-01-01 |
| Strptime.FieldThen | bin/ingest_events.py:143 | A one- or two-digit directive followed by a literal: the digits the directive's regular expression takes, in range, and no match when neither width fits |
| Strptime.MakeDateTime | bin/ingest_events.py:124-146 | Fields become a datetime iff they form a valid date and time; otherwise ValueError |
| Strptime.EventDate | bin/ingest_events.py:124 | "%m/%d/%Y" gives a valid midnight datetime or ValueError |
| Strptime.EventDateTime | bin/ingest_events.py:143-161 | "%m/%d/%Y %H%M" gives a valid datetime with zero seconds or ValueError |
| Strptime.AlertDateTime | bin/ingest_json_alerts.py:18 | The alert format gives a valid datetime or ValueError |
| Strptime.AlertFormatSwaps | bin/ingest_json_alerts.py:18 | An ISO time `YYYY-MM-DDThh:mm:ssZ` read with `%H:%S:%MZ` comes back with minutes and seconds swapped |
| Strptime.AlertFields | bin/ingest_json_alerts.py:18 | Any 20-character string shaped like an ISO time parses with the field after the hour as seconds and the last as minutes |
| Strptime.EventDateRoundTrip | bin/ingest_events.py:124 | A date written MM/DD/YYYY parses back to that date at midnight |
| Strptime.EventDateTimeRoundTrip | bin/ingest_events.py:143-146 | A time written "MM/DD/YYYY hhmm" parses back to itself |
| Strptime.EventClockFields | bin/ingest_events.py:143-146 | Any 15-character string of that shape parses to its fields |
| PyStr.Strip | bin/ingest_events.py:135-141 | `strip(chars)` gives a substring whose ends are kept characters |
| PyStr.StripShape | bin/ingest_events.py:135-141 | Strip removes exactly the droppable characters at both ends |
| PyStr.StripIdempotent | bin/ingest_events.py:54 | Stripping twice is stripping once |
| PyStr.StripKept | bin/ingest_events.py:141 | A string whose ends are kept is its own strip |
| PyStr.StripTrailing | bin/ingest_events.py:135 | A trailing run of droppable characters is removed and nothing else |
| PyStr.Split | bin/ingest_events.py:157-159 | `split(sep)` gives at least one piece and no piece contains sep |
| PyStr.JoinSplit | bin/ingest_events.py:157-159 | Joining the pieces with sep gives the string back |
| PyStr.SplitOne | bin/ingest_events.py:158 | The split has one piece iff sep does not occur |
| PyStr.SplitTwo | bin/ingest_events.py:157-159 | "a-b" with no sep in a or b splits into [a, b] |
| PyStr.Lower | bin/ingest_events.py:85-105 | `lower()` maps each character independently, letters A–Z to a–z |
| PyStr.LowerIdempotent | bin/ingest_events.py:85-105 | Lower-casing twice is lower-casing once |
| PyStr.ContainsFromOccurs | bin/ingest_events.py:90 | `find(t) >= 0` iff t occurs at some position |
| JsonValue.Get | bin/ingest_json_alerts.py:68-71 | `d[key]` on a JSON value: the field when it is an object holding key, KeyError for a missing key, TypeError for a non-object |
| JsonValue.At | bin/ingest_json_alerts.py:68-98 | `v[i]`: the item of an array or string, IndexError past the end, KeyError on an object, TypeError otherwise |
| JsonValue.Has | bin/ingest_json_alerts.py:70 | `key in v` for objects, arrays and strings, TypeError otherwise |
| JsonValue.FollowAppend | bin/ingest_json_alerts.py:68-98 | Following a path in two parts is following it at once; the first error stops the walk |
| JsonAlerts.Text | bin/ingest_json_alerts.py:90 | strptime accepts only a string: TypeError otherwise |
| JsonAlerts.TimeAt | bin/ingest_json_alerts.py:90-99 | A time field succeeds iff its path exists, holds a string and parses |
| JsonAlerts.IsoTimeSwapped | bin/ingest_json_alerts.py:18 | A field holding a genuine ISO time is read with minutes and seconds swapped |
| JsonAlerts.ReadCme | bin/ingest_json_alerts.py:90-126 | The CME fields are read iff every one of the seven lookups succeeds |
| JsonAlerts.InitialAlert | bin/ingest_json_alerts.py:89-111 | An ALERT record of shape "initial", "cme"/"cme", the CME start time, no end time, no comment |
| JsonAlerts.SummaryAlert | bin/ingest_json_alerts.py:114-141 | A SUMMARY record of shape "summary" which also needs and carries the observation alert's end_time |
| JsonAlerts.ObserverAlert | bin/ingest_json_alerts.py:144-167 | An OBSERVER ALERT record "observer": start and comment from the observation; last_data_time None when the product lacks it |
| JsonAlerts.Retraction | bin/ingest_json_alerts.py:170-190 | A CANCEL ALERT record "retraction", which requires last_data_time |
| JsonAlerts.KindOf | bin/ingest_json_alerts.py:75-86 | Exactly ALERT, SUMMARY, OBSERVER ALERT and CANCEL ALERT select a builder, each of one of the four stored kinds |
| JsonAlerts.Build | bin/ingest_json_alerts.py:103-184 | Every record built has event_type "cme", cme_type "cme", the alert type its kind gives, an issue time and a valid start time |
| JsonAlerts.Dispatch | bin/ingest_json_alerts.py:68-86 | No "alert" in the first observation means no record; a record is only ever the builder of its alert type |
| JsonAlerts.DispatchBuilds | bin/ingest_json_alerts.py:75-86 | ALERT, SUMMARY, OBSERVER ALERT and CANCEL ALERT each go to their builder |
| JsonAlerts.OtherTypeIgnored | bin/ingest_json_alerts.py:75-86 | Any other alert type leaves the database unchanged |
| JsonAlerts.NoAlertIgnored | bin/ingest_json_alerts.py:70-73 | A document whose first observation has no "alert" leaves the database unchanged |
| JsonAlerts.MissingLastDataTime | bin/ingest_json_alerts.py:153-156 | Without last_data_time only an observer alert can be built, with last_data_time None |
| JsonAlerts.InsertRecord | bin/ingest_json_alerts.py:101-111 | get_obsday on the start time, then one row appended with that obs_day |
| JsonAlerts.IngestDocumentShape | bin/ingest_json_alerts.py:64-86 | A document appends at most one alert row, of a known kind, "cme"/"cme" with an issue time, and keeps day_ids unique |
| JsonAlerts.IngestDocument | bin/ingest_json_alerts.py:64-86 | An exception is the dispatch's or get_obsday's OverflowError; days are only added; a document that adds no alert changes nothing |
| JsonAlerts.IngestFile | bin/ingest_json_alerts.py:64-86 | The cursor's effect is IngestDocument's, and an error leaves the tables as they were |
| MlsoDb.ObsDayStep | bin/ingest_events.py:69-81 | get_obsday returns the existing day_id, or inserts the day and returns None; alerts are untouched; ingest_json_alerts.py lines 35-47 are the same function |
| MlsoDb.ObsDayInserts | bin/ingest_events.py:73-81 | The answer is None iff the day had no row; then exactly that day is added with the next key |
| MlsoDb.ObsDayKeepsKeyed | bin/ingest_events.py:78-81 | get_obsday keeps the day_ids unique and below the next one |
| MlsoDb.ObsDaySecondCallFinds | bin/ingest_events.py:69-81 | A later call for the same observing day finds the row and changes nothing |
| MlsoDb.ObsDayIdOfInsert | bin/ingest_events.py:69-81 | The row inserted for a day is found by later calls under the key it was given |
| MlsoDb.Database.GetObsDay | bin/ingest_events.py:69-81 | The select, then the insert when nothing was found, as ObsDayStep says |
| MlsoDb.Database.InsertAlert | bin/ingest_events.py:96-99 | An insert into kcor_cme_alert appends one row |
| EventLog.Shift | bin/ingest_events.py:147-171 | A time before 06:00 moves to the next day and others stay; OverflowError only on 9999-12-31 |
| EventLog.ShiftAll | bin/ingest_events.py:171 | Shifting a list succeeds iff every element shifts, and shifts each element |
| EventLog.ParseAll | bin/ingest_events.py:161-162 | One valid datetime per piece, or ValueError |
| EventLog.Classify | bin/ingest_events.py:123-141 | IndexError iff the time is empty or is a lone "<"/"~"; WholeDay iff it starts with "-" |
| EventLog.ParseDatetime | bin/ingest_events.py:110-173 | An empty time raises IndexError; a success always has a datetime first, and every datetime is valid |
| EventLog.StartOnly | bin/ingest_events.py:145-149 | `[start, None]` iff the time parses and shifts |
| EventLog.Range | bin/ingest_events.py:157-173 | One shifted datetime per piece of the split |
| EventLog.DateOnlyRoundTrip | bin/ingest_events.py:123-125 | A time starting with "-" gives [d, d] from the date alone |
| EventLog.LeadingMarkDropped | bin/ingest_events.py:130-131 | A leading "<" or "~" is dropped |
| EventLog.FromRoundTrip | bin/ingest_events.py:137-149 | "from hhmmUT" gives [shifted start, None] |
| EventLog.TrailingDashRoundTrip | bin/ingest_events.py:133-149 | "hhmmUT--" gives [shifted start, None] |
| EventLog.StartOf | bin/ingest_events.py:145-149 | Any start-only form gives the shifted start and None |
| EventLog.RangeRoundTrip | bin/ingest_events.py:157-173 | "hhmm-hhmmUT" gives both times, each shifted |
| EventLog.TildeRangeRoundTrip | bin/ingest_events.py:157-173 | "hhmm~hhmmUT" splits on "~" when there is no "-" |
| EventLog.SpanClassified | bin/ingest_events.py:141-159 | A range of two four-digit clocks is a span whose pieces are the two clocks |
| EventLog.RangeBranch | bin/ingest_events.py:127-157 | Any other form reaches the split: `just_end` is never set, so the end-only branch is unreachable |
| EventLog.ParseRow | bin/ingest_events.py:102-107 | The parsed times, which must be exactly two; obs_day 0, limb, lower-cased type, instrument and comment = cell 5 or None |
| EventLog.FilterRow | bin/ingest_events.py:54 | Cells that are not all spaces, stripped of white space |
| EventLog.FilterRowClean | bin/ingest_events.py:54 | A row of already clean cells is its own filter |
| EventLog.WhiteCellKept | bin/ingest_events.py:54 | A cell of white space other than " " passes the test and becomes empty |
| EventLog.FirstFound | bin/ingest_events.py:90-92 | The first type that is a substring, or None iff none is |
| EventLog.FoundType | bin/ingest_events.py:89-92 | None iff no listed type occurs; otherwise one of the listed types |
| EventLog.FoundCme | bin/ingest_events.py:89-92 | found_type is "cme" iff "cme" occurs and "possible cme" does not |
| EventLog.ConfidenceOfTypes | bin/ingest_events.py:94 | Confidence is "high" iff found_type is "cme" |
| EventLog.Confidence | bin/ingest_events.py:94 | The level is "high" or "low", and "high" iff the lower-cased type is "cme" |
| EventLog.IngestEventSpec | bin/ingest_events.py:84-99 | ingest_event never touches mlso_numfiles, and inserts nothing iff the instrument is not "kcor" (any case) or no type is found |
| EventLog.IngestEventGrows | bin/ingest_events.py:84-99 | At most one "analyst" row is appended |
| EventLog.IngestRow | bin/ingest_events.py:54-66 | A row with fewer than 5 kept cells changes nothing; ValueError never escapes a row |
| EventLog.IngestRowGrows | bin/ingest_events.py:54-66 | One row only appends (at most one alert) and inserts days, keeping day_ids unique |
| EventLog.IngestRowsGrows | bin/ingest_events.py:53-66 | A file appends at most one alert per row, keeps earlier rows and keeps day_ids unique |
| EventLog.IngestRows | bin/ingest_events.py:53-66 | ValueError never escapes the row loop, and a file whose rows all have fewer than 5 kept cells changes nothing |
| EventLog.DayRecorded | bin/ingest_events.py:61-81 | A parsed row records its observing day in mlso_numfiles, or raises OverflowError |
| EventLog.EmptyTimeEndsFile | bin/ingest_events.py:102-123 | A row whose time cell is empty raises IndexError. It escapes the row loop and ingest_file, so the run ends before this file's commit |
| EventLog.ObsDayGrows | bin/ingest_events.py:69-81 | get_obsday only adds days |
| EventLog.IngestEvent | bin/ingest_events.py:84-99 | The method's effect on the tables is IngestEventSpec |
| EventLog.IngestOneRow | bin/ingest_events.py:54-66 | The effect of one row is IngestRow's, with its escaping error |
| EventLog.IngestFile | bin/ingest_events.py:45-66 | The rows after the 53 header rows are ingested as IngestRows says |

## Left out

- I/O: reading raw, LUT, configuration and JSON files; FITS headers; writing the stream and average files; glob. Files arrive as sequences, already decoded.
- Concurrency: the Win32 threads, events and sockets, the stdin loop, and camera 1's copy of the co-adding code.
- Clocks: `time()` is a parameter `now`. gmtime and localtime are a given `Tm`.
- The board calls (BitFlow): they are taken to succeed. Only their status assignments are modelled, plus a log of the actions taken. The stream writers and the image dump are log entries. The "cam lagged" message brdstop sends with the two buffer queue sizes (observing/socketcam/brdstop.h:61-63) is not logged, because the queue sizes come from the boards.
- Floating point:
  - `sqrt` in `corona` is left out; the model gives the squared corona.
  - `naive_sum` is an exact integer sum, not float32.
  - The float thresholds of the filter are exact integer tests, so rounding at exact boundaries is not modelled.
  - The float and double multiplies in src/realtime/kcor.c are left out: MatVec.BatchedMatrixVectorMultiply returns an error for them instead of a product.
- quicklook (stream/read_stream.py:167-175) is not modelled as a whole: it calls `read_time` with two of its three arguments, so it raises TypeError before `remove_aerosol` or `corona` is reached. The corona is modelled on the uint32 images `remove_aerosol` returns, which is what the call evidently intends.
- MatVec.BatchedMatrixVectorMultiply: gives a and b one element type and requires both arrays to hold every block. src/realtime/kcor.c:71-101 switches on a's type only, reads b's data as a's C type whatever b's type is, and checks neither array's length.
- MySQL: connection, commit and rollback. The cursor's select and insert are a map and a list.
- JSON decoding: numbers and other leaves are kept as the values the document holds. The database's conversion of columns is not modelled.
- strptime: only the three formats the scripts use are modelled. Python's `\d` in a str pattern matches every Unicode decimal digit, and `int()` reads them, but the model accepts only '0' to '9'.
- ReadStream.ReadTime: `np.empty`'s unspecified contents are not modelled. Slots that camera 1's files do not reach hold unspecified values, and the contract says nothing about them.
- ReadStream.RemoveAerosol: needs at least one exposure. With none, numpy's mean and median of an empty axis yield NaN with a warning.
- ReadStream.MeanImage: needs at least one exposure. With none, numpy's mean of an empty axis yields NaN with a warning.
- ReadStream.MedianImage: needs at least one exposure. With none, numpy's median of an empty axis yields NaN with a warning.
- ReadStream.RemoveAerosol: the diagnostic `print` and `plot_point` for one chosen pixel are left out.
- PyStr.Lower: lower-cases ASCII letters only. Python's full Unicode case mapping is not modelled.
- EventLog.ParseRow: requires at least 5 cells. Its only caller applies it after the filter has ensured this.
- CamControl.Initial: the start-up status P_UNKNOWN is modelled as CLOSED. No command treats the two differently: either one differs from every status a verb can ask for, and a request for CLOSED does nothing in both cases.
- AvgFileName.Directory: `sprintf(mydir, "%s/avg/", mydir)` uses its destination as an argument, which is undefined behaviour in C. The model takes the evidently intended result.
- ByteSwap.Swap: gives the unsigned 32-bit pattern. With a 32-bit signed `long`, a top byte of 128 or more makes the C result the negative number with the same bits.
- MatVec.Wrap: gives the two's-complement result a typical compiler produces. C leaves signed overflow undefined, which covers IDL_LONG and IDL_LONG64 and also IDL_UINT, whose operands are promoted to int. The conversion of an out-of-range value back to IDL_INT is implementation-defined.
- CoAdd.Narrow16Value: `(*pAv >> 16) - 0x8000` is unsigned arithmetic, so for a high half below 32768 it is a value above the range of short. Converting it to short is implementation-defined in C. The model takes the usual conversion, which keeps the low 16 bits as a two's-complement value.
- CamCommand.ScanInt: reads the digits as an unbounded integer. A `%d` whose value does not fit an int is undefined behaviour in C, and parselogic.h lines 20-22 store the values into int fields.
- CoAdd: the `DO_LUT0`-off variant, which adds raw codes without a table, is not modelled.
- The disabled stream-LUT path in threadsforstream.h is not part of this model.
- analysis/kcor_streamdata.py is not part of this model.

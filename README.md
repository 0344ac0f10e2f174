# DImage.js core in Dafny

DImage.js shrinks and rotates a user's photo in the browser before upload. It can
also keep the photo's original JPEG metadata. This project models the parts of
`dimage.js` that do not need a browser, and proves properties about them:

- **Segment scanner** (`JpegScan`, the `_parse` function). It walks the APPn and
  COM marker segments that follow the SOI marker. It hands every APP1 payload to
  the EXIF reader. It captures as `imageHead` the bytes from offset 2 to where
  the scan stops, when that is past offset 6. The scan stops at the first marker
  that is not APPn or COM, at a segment whose length runs past the buffer, or
  when four or fewer bytes are left. Markers and lengths are big-endian, as in ITU-T T.81 |
  ISO/IEC 10918-1, Annex B (Table B.1, section B.1.1.4). The caller passes only
  the first 262,144 bytes of the file (`MetadataPrefix`).
- **EXIF orientation reader** (`Exif`, the `readOrientationEXIFData` function).
  It checks the "Exif" identifier and the TIFF header: the II/MM byte-order
  mark, magic 42 and a first-IFD offset of at least 8 (TIFF 6.0, section 2;
  Exif 2.3, section 4.7.2). It then walks the 12-byte IFD0 entries for tag 274
  (0x0112). A later Orientation entry overwrites an earlier one.
- **Geometry** (`Geometry`, plus the `DImage` class in `Session`). The resize
  scale is the smaller bound ratio, clamped to 1, and a bound in (0, 1] means a
  fraction of the natural size. The rotation table covers orientations 6, 8
  and 3. Angles are quarter turns. Sizes are exact reals.
- **Header splicer** (`HeaderSplice`, the `updateImageHead` function). It
  re-scans the encoded output to find where its own header ends, then builds
  `FF D8 ++ captured header ++ rest of output`. `DImage.GetAsBlob` runs it only
  under the three-way guard in `getAsBlob`.

Each imperative function of the source is a method: `Parse` (while loop),
`ReadOrientationExif` (for loop), `UpdateImageHead` and `CopyInto` (filling a
fresh array), and `DImage.Resize`, `ApplyOrientation` and `Rotate` (updating
the canvas fields). Each of these methods except `CopyInto` is proved equal to
a specification function: `ParseResult`, `ReadOrientation`, `Spliced`,
`Resized`, or `Oriented` (the `PlanRotation` table applied to the canvas).
The lemmas then state what those functions mean
without restating the loops. `CopyInto` models `Uint8Array.set`; its contract
is a sequence expression over the array's old and new contents, not one of
those functions.

**Out-of-range reads.** The source does no bounds checking. A `DataView` read
past the end of the buffer raises `RangeError`. The model makes this an
explicit outcome, `Read<T> = Ok(value) | RangeError`, produced at the same read
where the source would raise. It does not use in-bounds preconditions. A
`RangeError` inside the EXIF reader propagates out of `_parse`, because the
source has no `try` there. The caller then never stores metadata
(`CapturedMetas` is `None`). In `updateImageHead`, re-scanning fails in two
cases: `_parse` raises, or `_parse` returns `undefined` for a buffer shorter
than 6 bytes (then `data.imageHead` throws a TypeError). `getAsBlob` catches
both, so no blob comes out (`Spliced` is `None`).

**Behaviour of the code that the model keeps.**
- `_parse` passes the reader `start = offset + 4`, the first byte after the
  APP1 marker and length, and the reader finds the TIFF header at `start + 6`.
- The reader returns `false` when validation fails, and `rotate` maps any
  falsy value to 1. The model keeps `NotExif` and maps it to 1 in
  `EffectiveOrientation`.
- A corrupt entry count makes the reader read past the buffer, which raises
  `RangeError`. `ScanRaisesExactly` states in terms of the bytes when this
  makes `_parse` raise.
- `bodyOffset` is `2 + |imageHead|`, and `imageHead` exists only when the scan
  ends past offset 6, so a re-scan ending at offset 4 or 6 still gives 2.
- For orientation 3, `_rotate` does not set the canvas size at all. Without an
  earlier resize, the canvas keeps its current size (300 x 150 for a new
  canvas) while the image is drawn around its own size
  (`HalfTurnWithoutResizeExample`). After a resize the canvas already has the
  base size, and the half-turned image covers it exactly
  (`RotateAfterResizeFillsCanvas`, `ResizeThenRotate`).
- The canvas is created lazily: `resize` and `rotate` create it on first
  use (`rotate` does so even for orientation 1), at the default 300 x 150.
  Before either has run, `getAsBlob` calls `toDataURL` on an undefined
  canvas; the TypeError is caught and no blob comes out. `DImage.hasCanvas`
  tracks this (`BlobBeforeCanvasExample`).
- Changing a canvas's size resets its 2D context. Orientation 3 changes no
  size, so its `ctx.rotate(Math.PI)` adds to whatever rotation the context
  already holds. `DImage.turn` tracks this.

## Model

| member | source | states |
|---|---|---|
| `Exif.ReadOrientationExif` | dimage.js:301-355 | The reader's loop and early returns give exactly `ReadOrientation`: `false` (NotExif), an orientation number, or the RangeError of the first read past the buffer. |
| `Exif.ReadOrientation` | dimage.js:301-355 | The reader as a function, with the checks in source order: RangeError at the first read past the buffer, `false` at the first failing check, otherwise the entry loop's result. Its meaning is stated by `ReadOrientationValidation` and `EntriesLastMatchWins`. |
| `Exif.EntriesOrientation` | dimage.js:341-352 | Whenever the entry loop finishes without raising, it holds an orientation number, never `false`. The value itself is given by `EntriesLastMatchWins`. |
| `Exif.EntriesErrorPersists` | dimage.js:346-352 | Once a read in the entry loop has raised, the loop's outcome is that RangeError whatever the entry count. |
| `Exif.EntriesLastMatchWins` | dimage.js:341-354 | If the IFD0 entries lie in the buffer, nothing raises. The result is the 16-bit value at offset 8 of the last entry tagged 274, or 1 if no entry has that tag. Entry i is at dirStart + 2 + 12i, read in the selected byte order. |
| `Exif.ReadOrientationValidation` | dimage.js:310-354 | An orientation number comes back only if the header is valid: "Exif", an II or MM mark, magic 42 in that byte order, and a first-IFD offset of at least 8. An in-buffer header that fails any check gives `false`. A valid header with an in-buffer IFD0 gives the last Orientation entry's value, or 1. |
| `Exif.ReadsEmbeddedOrientation` | dimage.js:301-355 | A well-formed Exif payload in either byte order, placed anywhere in a buffer, reads back exactly the orientation value it carries. |
| `Bytes.Uint16OfEncoded` | dimage.js:343-350 | A 16-bit read in a given byte order returns the value whose encoding sits at that offset. |
| `JpegScan.ScanSegments` | dimage.js:376-398 | The scan never moves backwards and never ends past the buffer: a segment that would overrun it stops the scan. |
| `JpegScan.Parse` | dimage.js:357-408 | The `_parse` loop gives exactly `ParseResult`: no result under 6 bytes, an empty object without SOI, otherwise the orientation and `imageHead = bytes[2, offset)` when offset > 6, or the reader's RangeError. |
| `JpegScan.ParseResult` | dimage.js:357-408 | A captured `imageHead` implies the buffer starts with FF D8, and the head is buffer bytes [2, 2 + n) with 4 < n <= \|buf\| - 2. A captured orientation also implies the SOI check passed. |
| `JpegScan.ScanEndsWhereRunEnds` | dimage.js:376-398 | The scan's final offset e ends a run of complete, end-to-end APPn/COM segments from its start. At e the scan cannot go on: the guard offset < length - 4 fails, the marker is not APPn/COM, or the segment overruns the buffer. |
| `JpegScan.RunEndIsUnique` | dimage.js:376-398 | Such a run has only one such end, so the conditions above fix the final offset completely. |
| `JpegScan.ScanWithoutApp1` | dimage.js:383-386 | A scan that meets no APP1 segment leaves the orientation as it was. |
| `JpegScan.ScanLastApp1Wins` | dimage.js:383-394 | Every APP1 overwrites the orientation, and the read happens before that segment's length check. So the result is the reader's value at the last APP1 on the run, including one whose segment overruns the buffer. |
| `JpegScan.ScanRaisesExactly` | dimage.js:376-398 | On a metadata run from o to its stop point e, the scan raises exactly when the EXIF reader raises at some APP1 segment on the run that the loop hands to it, the overrunning last one included. |
| `JpegScan.RunEndExists` | dimage.js:376-398 | From any start offset, following complete APPn/COM segments reaches a place where the scan stops. So every buffer, including one on which `_parse` raises, has a run end. |
| `JpegScan.ParseContract` | dimage.js:357-408 | Under 6 bytes: no result. No FF D8: an empty object. Otherwise let e be the end of the metadata run from 2, which `RunEndExists` provides for every buffer. `_parse` raises exactly when the reader raises at an APP1 segment on that run. When it does not raise: `imageHead` is exactly bytes [2, e) and exists only when e > 6, and the orientation is absent if no APP1 was met, else the last APP1's reading. |
| `JpegScan.MetadataPrefix` | dimage.js:285-297 | The scanned buffer is the file's first min(\|file\|, 262,144) bytes: a prefix of the file of exactly that length. |
| `JpegScan.CappedHeaderIsFileSlice` | dimage.js:297-297 | A header captured from the capped prefix is exactly file bytes [2, 2 + n), with 4 < n <= 262,142. |
| `JpegScan.ParsesExifJpeg` | dimage.js:357-408 | A JPEG with one APP1 Exif segment carrying orientation v parses as orientation v, in either byte order, with that segment as `imageHead`; the scan stops at SOS. |
| `HeaderSplice.BodyOffset` | dimage.js:411-420 | The body offset lies between 2 and the encoded buffer's length, so the slice taken there is in range. |
| `HeaderSplice.Spliced` | dimage.js:410-427 | There is an output exactly when a body offset exists. The output is FF D8, then exactly the header, then the buffer from the body offset. Its length is \|head\| + 2 + \|buffer\| - bodyOffset. |
| `HeaderSplice.SplicedLayout` | dimage.js:410-427 | Splicing fails exactly when re-scanning raises or returns nothing. Otherwise the output is FF D8, then exactly the header, then the encoded buffer from the body offset. The body offset is the buffer's own run end e when e > 6 and the buffer starts with SOI, else 2. The output length is \|head\| + 2 + \|buffer\| - bodyOffset. |
| `HeaderSplice.CopyInto` | dimage.js:424-425 | `Uint8Array.set` writes the source at the offset and leaves the other bytes as they were. |
| `HeaderSplice.UpdateImageHead` | dimage.js:410-428 | The freshly allocated output array holds exactly `Spliced(buffer, head)`, and there is an array exactly when splicing succeeds. |
| `Geometry.EffectiveBound` | dimage.js:256-264 | A bound in (0, 1] is that fraction of the natural size; any other bound is taken as it is. Its consequences are stated by `ResizeFitsBounds`. |
| `Geometry.ResizeScale` | dimage.js:266-269 | The smaller of the two bound-to-natural ratios, clamped to 1. `ResizeNeverEnlarges` and `ResizeScaleIsLargestFit` state what it means. |
| `Geometry.Resized` | dimage.js:271-272 | The natural size times the resize scale. `ResizeNeverEnlarges` (aspect ratio), `ResizeFitsBounds` and `ResizeIsIdempotent` state its properties. |
| `Geometry.ResizeNeverEnlarges` | dimage.js:266-272 | The scale is at most 1, so w <= natural width and h <= natural height; the aspect ratio holds: w * nh == h * nw. |
| `Geometry.ResizeFitsBounds` | dimage.js:256-272 | With positive bounds, w and h fit inside the effective bounds; an absolute (> 1) bound is never exceeded. |
| `Geometry.ResizeScaleIsLargestFit` | dimage.js:266-269 | Any scale that neither enlarges nor exceeds either bound is at most the computed scale: the min-of-ratios is the largest fitting scale. |
| `Geometry.ResizeKeepsFittingImage` | dimage.js:266-272 | An image already inside its bounds keeps its natural size. |
| `Geometry.ResizeIsIdempotent` | dimage.js:256-272 | With absolute bounds, resizing the resized size again gives the same size. |
| `Geometry.ResizeByFraction` | dimage.js:256-272 | Bounds 0.5 x 0.5 on 1000 x 800 give scale 0.5 and 500 x 400. |
| `Geometry.PlanRotationFillsCanvas` | dimage.js:215-234 | Only 6, 8 and 3 rotate. 6 and 8 swap the canvas to h x w; 3 keeps w x h. In each case the turned image (+pi/2 at (0, -h), -pi/2 at (-w, 0), pi at (-w, -h)) lands exactly on that canvas. |
| `Geometry.PlanRotationExample` | dimage.js:216-223 | Orientation 6 around 4000 x 3000 turns by +pi/2 and draws at (0, -3000), with a swapped canvas. |
| `Geometry.PlanRotation` | dimage.js:215-234 | There is a plan exactly for orientations 6, 8 and 3. The canvas swaps its sides exactly for 6 and 8. Every plan turns the context. |
| `Session.EffectiveOrientation` | dimage.js:196-199 | Missing metadata, a missing orientation, the reader's `false` and 0 all become 1. A captured non-zero orientation number v gives exactly v. The result is never 0. |
| `Session.CapturedMetas` | dimage.js:46-58 | Metadata is captured only for `image/jpeg`, and then it is exactly what parsing the prefix returned. Whenever parsing the prefix returns an object, it is captured. |
| `Session.PreservesHeader` | dimage.js:157-160 | The guard of `getAsBlob`: JPEG output, `preserveHeaders` set, and a captured `imageHead`. |
| `Session.Oriented` | dimage.js:215-234 | `_rotate`'s table applied to a canvas: an orientation without a plan leaves the canvas, its rotation and its draws exactly as they were; one with a plan appends exactly one draw, under the context's new rotation, keeps every earlier draw, and leaves the canvas either as it was or at the swapped base size. |
| `Session.DImage.constructor` | dimage.js:46-58 | Metadata is captured only for `image/jpeg`, from the first 262,144 bytes, and only when `_parse` returns an object. No canvas exists yet; the one `resize` or `rotate` will create is 300 x 150 and not marked as resized. |
| `Session.DImage.Resize` | dimage.js:238-281 | The canvas exists afterwards and becomes `Resized(natural, opts.width, opts.height)`. The `hasResetWH` mark is set, the context rotation is reset, and one unrotated draw at (0, 0) is added. |
| `Session.DImage.ApplyOrientation` | dimage.js:204-236 | The canvas, its rotation and its draws become `Oriented` of the old ones around the base, which is the canvas when marked resized, else the natural size. 6 and 8: canvas = swapped base. 3: canvas unchanged, half turn added to the context's rotation. The draw is at the table's offset; other orientations change nothing. |
| `Session.DImage.BaseSize` | dimage.js:205-213 | The size `_rotate` turns around: the canvas size once `_resize` has set `hasResetWH`, else the natural size. |
| `Session.DImage.Rotate` | dimage.js:192-202 | Creates the canvas if there is none, then applies `Oriented` to the effective orientation; orientation 1 and every unhandled value leave the canvas size, rotation and draws unchanged. |
| `Session.DImage.GetAsBlob` | dimage.js:150-175 | Before `resize` or `rotate` has created the canvas, there is no blob. Otherwise: with JPEG output, `preserveHeaders` set and a captured header, the blob is the spliced bytes, or nothing if splicing raises. Otherwise the blob is the encoded bytes. |
| `Session.RotateAfterResizeFillsCanvas` | dimage.js:204-281 | After a resize, rotating by any orientation that rotates draws the turned image exactly over the resulting canvas. |
| `Session.ResizeThenRotate` | dimage.js:192-281 | After `resize()` then `rotate()` on one image, the canvas is the resized size, with its sides swapped for orientations 6 and 8. The last draw covers that canvas exactly, for every captured orientation, 1 included. |
| `Session.BlobCarriesSourceHeader` | dimage.js:157-165 | When the header is preserved and splicing succeeds, the blob starts with FF D8 and then the source file's own bytes [2, 2 + \|head\|), with \|head\| < 262,144. |

## Left out

- File and image loading: `FileReader`, `Image`, object URLs, `onload`/`onerror`, `destroy`, and the module export. These are browser I/O and callbacks. The model keeps only the 262,144-byte prefix, as `MetadataPrefix`, and takes the image's natural size and the file's MIME type as constructor arguments.
- What happens after `_parse` raises inside the `FileReader` callback. `init` never calls `inited`, so `autoCompress` and the user callback never run. The model records only that no metadata is captured. `autoCompress` itself is a lifecycle flag and is not modelled.
- Canvas rasterization: `drawImage`, `ctx.rotate`, `toDataURL`, `getAsBase64` and the JPEG quality. These belong to the browser's rasterizer. Draw calls are recorded as `Draw` values, and the encoded bytes are a parameter of `GetAsBlob`.
- The browser's conversion of the real `w` and `h` to integer canvas sizes. The model uses exact real arithmetic in place of JavaScript floats, so it does not model rounding, NaN or Infinity. A natural size of 0 does not occur for a loaded image, so `Resize` requires positive natural sizes.
- `dataURL2Blob`, `dataURL2ArrayBuffer` and `arrayBufferToBlob`. They depend on `atob`, `decodeURIComponent` and Blob/BlobBuilder capability detection, which are foreign calls. A failure there would only mean "no blob".
- The `try`/`catch` in `getAsBlob` is modelled only as "no output on failure" (`None`).
- Debug logging and the merge of options with their defaults.

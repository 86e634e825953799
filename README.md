# Chameleon interceptors in Dafny

Chameleon is a browser extension against fingerprinting. Its content script patches
browser APIs so that every fingerprinting surface reports values taken from a session
profile, and adds small deterministic noise to them. Two seeded generators drive the noise:
one seeded with `seed + '_canvas'`, the other with `seed + '_audio'`.

This project models the transforms of three interceptors:

- **Canvas** (`content/modules/interceptors/canvas.js`).
  - `applyImageDataNoise` shifts each pixel's red, green and blue by one draw and clamps
    them to a byte.
  - `detectEdges` computes a Sobel edge map.
  - `applyCanvasNoise` runs in stages. It guards with the applied-canvas set, calls its own
    `getContext('2d')` and checks the size. It reads the bitmap through the patched
    `getImageData` and noises the edge pixels. It writes the bitmap back through the patched
    `putImageData` and draws the seed-coloured watermark.
  - The patched `getContext`, `fillText`/`strokeText`, `toDataURL`/`toBlob`,
    `getImageData` and `putImageData` are modelled too.
- **Audio** (`content/modules/interceptors/audio.js`).
  - The `AudioContext` and `OfflineAudioContext` constructors report the profile's sample
    rate.
  - A patched oscillator's `frequency.value` setter detunes the frequency.
  - The dynamics-compressor defaults get jitter.
  - `OscillatorNode.start` gets timing jitter.
  - The four `AnalyserNode` read-outs get noise.
- **Timezone** (`content/modules/interceptors/timezone.js`).
  - `getTimezoneOffset` reports the profile's offset.
  - The `toLocale*String` methods and `new Intl.DateTimeFormat` inject the profile's locale
    and `timeZone`.
  - `toString`/`toTimeString` rewrite their `GMT±HHMM (abbr)` suffix.
  - `resolvedOptions` and `supportedLocalesOf` report the profile.

The seeded generator itself is foreign code. `SeededStream` models it as a function from a
seed to an infinite stream of draws in [0, 1), plus a cursor. Every operation is proved
against that stream: which draw it consumes and how many draws it takes.

Where the source changes something in place, the model changes it in place too:

- canvases, the guard set and the generator cursor;
- `ImageData` buffers and analyser arrays, as Dafny `array`s;
- options objects and result arrays.

Each such method is proved equal to a pure function of the old state. The properties are
proved about those functions.

Some members exist only for the proofs and model no source line of their own:
- `TimezoneFormat.ParseGmtOffset` is an independent reader of `±HHMM` texts. It was written so that `GmtOffsetRoundTrip` can state what `getGMTOffset`'s text means.
- `CanvasNoise.FullNoiseStages` and `CanvasNoise.WriteBackStages` unfold `FullNoise` and `WriteBack` into the stages that `NoiseBitmap` and `WriteBackEdges` run one after the other.
- `CanvasInterception.CanvasInterceptor.SobelAt` is the body of `FillRow`'s inner loop.

Modules, one per file:

- `JsValues`: JavaScript values and objects.
- `SeededStream`: the generator.
- `PixelGrid`: grid indices, and the native pixel read and write.
- `CanvasNoise` and `CanvasInterception`: canvas.
- `AudioNoise` and `AudioInterception`: audio.
- `TimezoneFormat` and `TimezoneInterception`: timezone.

## Model

| member | source | states |
|---|---|---|
| SeededStream.StreamSeed | content/modules/interceptors/canvas.js:6 | the seed is the session seed, `_`, then the surface name |
| SeededStream.CanvasAndAudioSeedsDiffer | content/modules/interceptors/audio.js:6 | the canvas and audio streams never share a seed, whatever the two session seeds are |
| SeededStream.Rng.Next | content/modules/interceptors/canvas.js:175 | a draw returns the stream's value at the cursor and advances the cursor by one |
| PixelGrid.Crop | content/modules/interceptors/canvas.js:166 | the rectangle read holds 4 bytes per pixel |
| PixelGrid.CropWhole | content/modules/interceptors/canvas.js:166 | reading the whole canvas from the origin yields its bitmap unchanged |
| PixelGrid.BlitWhole | content/modules/interceptors/canvas.js:185 | writing a whole-size image at the origin replaces the bitmap by the image |
| CanvasNoise.Clamp | content/modules/interceptors/canvas.js:264-266 | the result is always a byte |
| CanvasNoise.Round | content/modules/interceptors/canvas.js:265 | `Math.round(v)` is the integer within a half of v, halves rounded up |
| CanvasNoise.ClampIsNearestByte | content/modules/interceptors/canvas.js:264-266 | the clamped value is a byte nearest to the input |
| CanvasNoise.ClampKeepsBytes | content/modules/interceptors/canvas.js:264-266 | a byte is clamped to itself |
| CanvasNoise.ClampStaysNear | content/modules/interceptors/canvas.js:264-266 | adding d to a byte and clamping moves it by at most abs(d) + 1/2 |
| CanvasNoise.Shift | content/modules/interceptors/canvas.js:175 | a draw below one half gives a negative shift, one half gives none, and above one half a positive one (for positive noise and scale) |
| CanvasNoise.ShiftBound | content/modules/interceptors/canvas.js:175 | a noise shift `(r - 0.5) * noise * scale` is at most `noise * scale / 2` in magnitude |
| CanvasNoise.NoisyByte | content/modules/interceptors/canvas.js:213-217 | an alpha byte is kept; a colour byte of pixel p becomes the clamp of itself plus the shift of draw base + p, a byte |
| CanvasNoise.ImageNoised | content/modules/interceptors/canvas.js:206-219 | image-data noise keeps the buffer length |
| CanvasNoise.ImageNoisedAt | content/modules/interceptors/canvas.js:212-218 | byte i is the clamp of the byte plus the shift of pixel i/4's draw, alpha excepted |
| CanvasNoise.ImageNoiseKeepsAlpha | content/modules/interceptors/canvas.js:212-218 | alpha bytes are never changed, and every colour byte written is a byte |
| CanvasNoise.ImageNoiseBounded | content/modules/interceptors/canvas.js:212-218 | a byte buffer stays a byte buffer, and each byte moves by at most 25 * noise + 1/2 |
| CanvasNoise.ZeroNoiseKeepsImage | content/modules/interceptors/canvas.js:213 | with noise 0 a byte buffer is unchanged |
| CanvasNoise.ImageNoiseStep | content/modules/interceptors/canvas.js:212-218 | one loop iteration, shifting pixel n by draw n, extends the noised prefix by one pixel |
| CanvasNoise.ImageNoisedAll | content/modules/interceptors/canvas.js:212 | when the loop has covered every pixel, the buffer equals the image-data noise of the input |
| CanvasNoise.PixelBrightness | content/modules/interceptors/canvas.js:259-262 | brightness is a third of the colour sum, and lies in [0, 255] for a byte buffer |
| CanvasNoise.Window | content/modules/interceptors/canvas.js:230-238 | the neighbourhood of an interior pixel has nine entries |
| CanvasNoise.FlatWindowHasNoGradient | content/modules/interceptors/canvas.js:241-248 | both Sobel kernels give 0 on a flat neighbourhood |
| CanvasNoise.EdgeLevel | content/modules/interceptors/canvas.js:251-252 | for s9 nine times the squared gradient magnitude, the level is at most 255 and, unless capped at 255, the largest e with 9*e*e <= s9 |
| CanvasNoise.EdgeThreshold | content/modules/interceptors/canvas.js:173 | an edge level exceeds 128 exactly when the squared gradient magnitude is at least 129 * 129 |
| CanvasNoise.EdgeAt | content/modules/interceptors/canvas.js:221-257 | each edge value lies in [0, 255] |
| CanvasNoise.GradientScaling | content/modules/interceptors/canvas.js:241-248 | the gradients over brightness are a third of the integer kernels over colour sums |
| CanvasNoise.LevelOfThirds | content/modules/interceptors/canvas.js:251-252 | the level of the integer sums is the truncated, capped magnitude of the real gradients |
| CanvasNoise.EdgeIsTruncatedMagnitude | content/modules/interceptors/canvas.js:227-252 | an interior edge value is `min(255, sqrt(gx*gx + gy*gy))` stored into a `Uint8Array`, i.e. truncated |
| CanvasNoise.EdgeMap | content/modules/interceptors/canvas.js:221-222 | the edge map has one entry per pixel |
| CanvasNoise.EdgeMapAt | content/modules/interceptors/canvas.js:225-253 | entry (x, y) is the edge value at (x, y), and border pixels are 0 |
| CanvasNoise.EdgeMapRow | content/modules/interceptors/canvas.js:226-253 | a row of the map holds the edge values of that row |
| CanvasNoise.BorderRowsAreZero | content/modules/interceptors/canvas.js:222-225 | the first and last rows of the map stay 0 |
| CanvasNoise.RowsDone | content/modules/interceptors/canvas.js:225 | once the row loop ends, the array filled row by row is the edge map |
| CanvasNoise.FlatPixelHasNoEdge | content/modules/interceptors/canvas.js:227-252 | on an image of uniform brightness every edge value is 0 |
| CanvasNoise.UniformImageHasNoEdges | content/modules/interceptors/canvas.js:170-183 | a uniform-brightness image has an all-zero edge map, and the selective loop leaves it exactly as it is, whatever the draws |
| CanvasNoise.EdgeCount | content/modules/interceptors/canvas.js:172-173 | the number of edge pixels (value above 128) is at most the number of pixels |
| CanvasNoise.EdgeCountMonotone | content/modules/interceptors/canvas.js:172-173 | a longer prefix holds no fewer edge pixels |
| CanvasNoise.EdgeDrawsInOrder | content/modules/interceptors/canvas.js:172-175 | an earlier edge pixel takes an earlier draw, so edge pixels take distinct draws |
| CanvasNoise.SelectedPixel | content/modules/interceptors/canvas.js:173-182 | four bytes, alpha always kept and a non-edge pixel kept whole; `SelectiveSameShift` states the colours of an edge pixel |
| CanvasNoise.SelectiveNoised | content/modules/interceptors/canvas.js:172-183 | the selective loop keeps the buffer length |
| CanvasNoise.SelectiveKeepsNonEdges | content/modules/interceptors/canvas.js:172-183 | non-edge pixels and every alpha byte are unchanged, and edge colour bytes become bytes |
| CanvasNoise.SelectiveSameShift | content/modules/interceptors/canvas.js:173-181 | an edge pixel's three colours move by the same shift, from draw number (edge pixels before it) |
| CanvasNoise.SelectiveSkips | content/modules/interceptors/canvas.js:173 | a pixel with edge value at most 128 keeps all four bytes |
| CanvasNoise.PixelShifted | content/modules/interceptors/canvas.js:178-180 | the three colour bytes of one pixel become the clamp of themselves plus d; every other byte, alpha included, is kept |
| CanvasNoise.SelectiveStep | content/modules/interceptors/canvas.js:172-183 | one iteration of the selective loop extends the processed prefix by one pixel |
| CanvasNoise.SelectedAll | content/modules/interceptors/canvas.js:172 | when the loop ends, the buffer equals the selective noise of the input |
| CanvasNoise.ColourByte | content/modules/interceptors/canvas.js:190 | `Math.floor(r * 256)` of a draw is a byte |
| CanvasNoise.Watermark | content/modules/interceptors/canvas.js:188-196 | the watermark colour is three bytes taken from three consecutive draws |
| CanvasNoise.TextArgs | content/modules/interceptors/canvas.js:60-63 | with 3 or more arguments, numeric x and y move by offsetX/10 and offsetY/10, and every other argument is kept |
| CanvasNoise.GetContextStep | content/modules/interceptors/canvas.js:36-47 | an unsupported id returns null and changes nothing; otherwise the first supported kind asked for fixes the canvas's kind; a 2d context is handed out only on a 2d canvas, and it marks the canvas and installs the text offsets once |
| CanvasNoise.UnsupportedIdKeepsCanvasFree | content/modules/interceptors/canvas.js:38-40 | after `getContext` with an unsupported id a fresh canvas is still free, and a later `getContext('2d')` succeeds |
| CanvasNoise.NoiseStep | content/modules/interceptors/canvas.js:153-204 | the step keeps the canvas well-formed, its size and its taint |
| CanvasNoise.NoiseGuard | content/modules/interceptors/canvas.js:154-157 | a canvas already in the guard set, or with a non-2d context, is untouched and takes no draws |
| CanvasNoise.NoiseMarks | content/modules/interceptors/canvas.js:154-199 | after the step a canvas is in the guard set iff it already was or it has no non-2d context |
| CanvasNoise.NoiseSkipsEmptyOrTainted | content/modules/interceptors/canvas.js:163-203 | an empty or tainted canvas keeps its pixels and takes no draws, yet ends up in the guard set |
| CanvasNoise.WriteBackDraws | content/modules/interceptors/canvas.js:172-196 | after the read, the stages use one draw per edge pixel and one per pixel, and the watermark takes the next three |
| CanvasNoise.NoiseDrawCount | content/modules/interceptors/canvas.js:165-196 | a full noising consumes 2 * width * height + (edge pixels) + 3 draws |
| CanvasNoise.NoiseFullPath | content/modules/interceptors/canvas.js:153-199 | a readable, non-empty, unmarked 2d canvas gets the noised bitmap, is marked, and gets the watermark as its last fill |
| CanvasNoise.NoiseTwiceIsNoiseOnce | content/modules/interceptors/canvas.js:154 | a second step right after any step changes nothing and takes no draws |
| CanvasNoise.ContextCallDisablesNoise | content/modules/interceptors/canvas.js:40-42 | once the page obtains a 2d context, canvas noise never runs on that canvas |
| CanvasNoise.FullNoise | content/modules/interceptors/canvas.js:165-196 | the noising of a readable canvas keeps the bitmap length; `NoiseDrawCount` and `NoiseKeepsBytesAndAlpha` state its draws, its bytes and its alpha |
| CanvasNoise.WriteBack | content/modules/interceptors/canvas.js:172-196 | the selective loop, the noised write and the watermark keep the buffer length; `WriteBackDraws` and `WriteBackKeepsBytesAndAlpha` state its draws, bytes and alpha |
| CanvasNoise.Finish | content/modules/interceptors/canvas.js:185-196 | the noised write and the watermark keep the buffer length; `FinishKeepsBytesAndAlpha` states its bytes and alpha |
| CanvasNoise.FinishKeepsBytesAndAlpha | content/modules/interceptors/canvas.js:185-196 | the write-back keeps a byte buffer a byte buffer and keeps alpha |
| CanvasNoise.WriteBackKeepsBytesAndAlpha | content/modules/interceptors/canvas.js:172-196 | the selective loop and the write-back keep bytes and alpha |
| CanvasNoise.NoiseKeepsBytesAndAlpha | content/modules/interceptors/canvas.js:165-196 | the whole noising keeps a byte bitmap a byte bitmap and never changes an alpha byte |
| CanvasInterception.ShiftPixel | content/modules/interceptors/canvas.js:178-180 | the colour channels of one pixel are shifted and clamped in place; nothing else changes |
| CanvasInterception.CanvasInterceptor.constructor | content/modules/interceptors/canvas.js:3-8 | the generator is seeded with `seed + '_canvas'` and the guard set starts empty |
| CanvasInterception.CanvasInterceptor.GetContext | content/modules/interceptors/canvas.js:36-47 | the canvas changes as `GetContextStep` says, and the guard set gains the canvas only on a 2d context |
| CanvasInterception.CanvasInterceptor.DrawText | content/modules/interceptors/canvas.js:54-80 | the arguments are moved by `TextArgs` only on a context with the offsets installed |
| CanvasInterception.CanvasInterceptor.ApplyImageDataNoise | content/modules/interceptors/canvas.js:206-219 | the buffer becomes its image-data noise, with one draw per pixel |
| CanvasInterception.CanvasInterceptor.DetectEdges | content/modules/interceptors/canvas.js:221-257 | a fresh array equal to the edge map |
| CanvasInterception.CanvasInterceptor.FillRow | content/modules/interceptors/canvas.js:226-253 | the inner loop fills one interior row with its edge values and leaves later rows zero |
| CanvasInterception.CanvasInterceptor.NoiseEdgePixels | content/modules/interceptors/canvas.js:172-183 | the buffer becomes its selective noise, with one draw per edge pixel |
| CanvasInterception.CanvasInterceptor.GetImageData | content/modules/interceptors/canvas.js:115-127 | canvas noise runs first; an empty rectangle or a tainted canvas yields nothing; otherwise the rectangle read gets image-data noise with fresh draws |
| CanvasInterception.CanvasInterceptor.PutImageData | content/modules/interceptors/canvas.js:137-146 | the caller's buffer is noised in place, then written into the bitmap; with no image nothing changes |
| CanvasInterception.CanvasInterceptor.ApplyCanvasNoise | content/modules/interceptors/canvas.js:153-204 | canvas, guard set and cursor change exactly as `NoiseStep` says |
| CanvasInterception.CanvasInterceptor.NoiseBitmap | content/modules/interceptors/canvas.js:165-203 | the read, noise and write of a non-empty canvas: nothing on a tainted one, `FullNoise` otherwise |
| CanvasInterception.CanvasInterceptor.NoiseAndWrite | content/modules/interceptors/canvas.js:170-196 | edge map, selective noise and write-back of the buffer read, as `WriteBack` says |
| CanvasInterception.CanvasInterceptor.WriteBackEdges | content/modules/interceptors/canvas.js:172-196 | selective noise, the noised write and the watermark, as `WriteBack` says |
| CanvasInterception.CanvasInterceptor.DrawWatermark | content/modules/interceptors/canvas.js:188-196 | one fill of the watermark colour from the next three draws, appended to the canvas's fills |
| CanvasInterception.CanvasInterceptor.Export | content/modules/interceptors/canvas.js:85-105 | `toDataURL`/`toBlob` run the canvas noise step, then export the canvas's bitmap as that step left it; the watermark stays a recorded fill (see "## Left out") |
| AudioNoise.ByteJitter | content/modules/interceptors/audio.js:177 | `Math.floor((r - 0.5) * 2)` is -1 when r < 0.5 and 0 otherwise |
| AudioNoise.JitterByte | content/modules/interceptors/audio.js:178 | a jittered entry is always a byte |
| AudioNoise.JitterByteLowers | content/modules/interceptors/audio.js:176-179 | a byte drops by one iff it is positive and the draw is below 0.5, and is kept otherwise |
| AudioNoise.BytesJittered | content/modules/interceptors/audio.js:176-179 | the byte loop keeps the array length; `BytesJitteredLower` states each entry |
| AudioNoise.BytesJitteredLower | content/modules/interceptors/audio.js:176-179 | every byte entry ends in [v-1, v], dropping exactly when its draw is below 0.5 and it is positive |
| AudioNoise.TimeShift | content/modules/interceptors/audio.js:198 | a time-domain shift is at most 0.05 * abs(noise) |
| AudioNoise.ClampUnit | content/modules/interceptors/audio.js:199 | `Math.max(-1, Math.min(1, v))` lies in [-1, 1] |
| AudioNoise.ClampUnitNearest | content/modules/interceptors/audio.js:199 | the clamp to [-1, 1] fixes in-range values and never moves a value away from any in-range point |
| AudioNoise.TimeNoised | content/modules/interceptors/audio.js:197-200 | the time-domain loop keeps the array length; `TimeNoisedNear` states each sample |
| AudioNoise.TimeNoisedNear | content/modules/interceptors/audio.js:197-200 | every sample ends in [-1, 1], and an in-range sample moves by at most 0.05 * abs(noise) |
| AudioNoise.BinWeight | content/modules/interceptors/audio.js:153-154 | the bin weight lies in (0.5, 1] |
| AudioNoise.BinWeightFalls | content/modules/interceptors/audio.js:153-154 | higher bins get no more weight than lower ones |
| AudioNoise.FrequencyShift | content/modules/interceptors/audio.js:153-155 | the shift of bin i is at most 0.5 * abs(noise) * weight(i) |
| AudioNoise.FrequencyNoised | content/modules/interceptors/audio.js:151-158 | the frequency loop keeps the array length; `FrequencyNoisedNear` states each bin |
| AudioNoise.FrequencyNoisedNear | content/modules/interceptors/audio.js:151-158 | each bin moves by at most half its noise amount, at most 0.5 * abs(noise), and the bound falls with the bin |
| AudioNoise.Jittered | content/modules/interceptors/audio.js:120-124 | a jittered default lies within half the jitter width of the default |
| AudioNoise.CompressorJitter | content/modules/interceptors/audio.js:120-124 | the five settings lie in their jitter windows around -24, 30, 12, 0.003 and 0.25, from five consecutive draws |
| AudioNoise.Detuned | content/modules/interceptors/audio.js:97 | a detuned frequency is within 0.00005 * abs(f) of f |
| AudioNoise.StartShift | content/modules/interceptors/audio.js:239 | a start-time shift lies in [-0.00005, 0.00005) |
| AudioNoise.StartArgs | content/modules/interceptors/audio.js:238-240 | a numeric first argument moves by at most 0.00005; other arguments and non-numeric calls are kept |
| AudioNoise.OfflineArgs | content/modules/interceptors/audio.js:71-78 | with 3 or more arguments the third becomes the profile's sample rate; everything else is kept |
| AudioNoise.OfflineArgsIdempotent | content/modules/interceptors/audio.js:73-75 | rewriting the arguments twice is rewriting them once |
| AudioInterception.AudioInterceptor.constructor | content/modules/interceptors/audio.js:3-7 | the generator is seeded with `seed + '_audio'` |
| AudioInterception.AudioInterceptor.NewAudioContext | content/modules/interceptors/audio.js:41-53 | a new context reports the profile's sample rate |
| AudioInterception.AudioInterceptor.NewOfflineAudioContext | content/modules/interceptors/audio.js:70-79 | the native constructor receives `OfflineArgs` of the arguments |
| AudioInterception.AudioInterceptor.CreateOscillator | content/modules/interceptors/audio.js:87-105 | an oscillator from a realtime context gets the patched `frequency.value`; one from an offline context does not |
| AudioInterception.AudioInterceptor.SetFrequency | content/modules/interceptors/audio.js:93-101 | a patched set schedules the detuned value at the context's current time, takes one draw, and leaves the read value at the creation frequency |
| AudioInterception.AudioInterceptor.CreateDynamicsCompressor | content/modules/interceptors/audio.js:115-128 | a realtime context's compressor gets `CompressorJitter` from the next five draws; an offline one keeps the defaults |
| AudioInterception.AudioInterceptor.DrawCompressorSettings | content/modules/interceptors/audio.js:120-124 | the five draws yield `CompressorJitter` at the cursor |
| AudioInterception.AudioInterceptor.Start | content/modules/interceptors/audio.js:235-244 | the forwarded arguments are `StartArgs`, with one draw exactly when the first argument is a number |
| AudioInterception.AudioInterceptor.GetFloatFrequencyData | content/modules/interceptors/audio.js:142-160 | each bin gets its weighted shift from one draw; no array, no draws |
| AudioInterception.AudioInterceptor.JitterBytes | content/modules/interceptors/audio.js:176-179 | the array becomes `BytesJittered` of itself, one draw per entry |
| AudioInterception.AudioInterceptor.GetByteFrequencyData | content/modules/interceptors/audio.js:169-181 | byte jitter on the array; no array, no draws |
| AudioInterception.AudioInterceptor.GetByteTimeDomainData | content/modules/interceptors/audio.js:211-223 | byte jitter on the array; no array, no draws |
| AudioInterception.AudioInterceptor.GetFloatTimeDomainData | content/modules/interceptors/audio.js:190-202 | each sample gets a time shift and is clamped to [-1, 1]; no array, no draws |
| TimezoneFormat.Decimal | content/modules/interceptors/timezone.js:182 | `toString()` of a non-negative integer is all digits, reads back as the number, and has 1 digit iff n < 10 and at most 2 iff n < 100 |
| TimezoneFormat.PadStartValue | content/modules/interceptors/timezone.js:182 | `padStart(2, '0')` keeps the decimal value of a digit string |
| TimezoneFormat.GmtOffset | content/modules/interceptors/timezone.js:177-183 | the sign is '+' iff offset <= 0, then at least four digits, exactly four iff abs(offset) < 6000 |
| TimezoneFormat.GmtOffsetFields | content/modules/interceptors/timezone.js:178-182 | the hour field reads as abs(offset) / 60 and the last two digits as abs(offset) % 60 |
| TimezoneFormat.GmtOffsetRoundTrip | content/modules/interceptors/timezone.js:177-183 | for abs(offset) < 6000 the text is 5 characters and reads back as the offset |
| TimezoneFormat.GmtOffsetExamples | content/modules/interceptors/timezone.js:177-183 | -300 gives `+0500`, 0 gives `+0000`, and 330 gives `-0530` |
| TimezoneFormat.Abbreviation | content/modules/interceptors/timezone.js:157-175 | the table's entry for a listed zone and `GMT` otherwise; never empty and never containing ')' |
| TimezoneFormat.WithTimeZone | content/modules/interceptors/timezone.js:50-52 | `timeZone` is kept when truthy, otherwise set to the profile's zone; other keys are kept |
| TimezoneFormat.WithTimeZoneIdempotent | content/modules/interceptors/timezone.js:50-52 | injecting twice is injecting once |
| TimezoneFormat.Resolved | content/modules/interceptors/timezone.js:122-127 | `timeZone` is the profile's; `locale` is replaced iff falsy or `en-US`; other keys are kept |
| TimezoneFormat.ResolvedIdempotent | content/modules/interceptors/timezone.js:122-127 | resolving twice is resolving once |
| TimezoneFormat.WithLocale | content/modules/interceptors/timezone.js:145-150 | the result grows by at most the profile's locale, exactly when requested in an array and missing |
| TimezoneFormat.WithLocaleOnce | content/modules/interceptors/timezone.js:146-149 | the profile's locale occurs at most once more than before, and a second call adds nothing |
| TimezoneFormat.CloseFrom | content/modules/interceptors/timezone.js:77 | finds the first ')' at or after a position, if any |
| TimezoneFormat.MatchAt | content/modules/interceptors/timezone.js:77 | `GMT[+-]\d{4} \([^)]+\)` matches at k exactly when the head `GMT`, a sign, four digits and ` (` is there and a `)` follows after at least one other character; the match ends at the first such `)` |
| TimezoneFormat.FirstMatch | content/modules/interceptors/timezone.js:77 | the match found is the leftmost one |
| TimezoneFormat.ReplaceFirst | content/modules/interceptors/timezone.js:77 | `replace` with a non-global pattern: unchanged when nothing matches, otherwise the leftmost match replaced and the rest kept |
| TimezoneFormat.Stamp | content/modules/interceptors/timezone.js:74-77 | the replacement starts with `GMT` and a sign that is `+` exactly when the offset is at or below zero, and ends with `)`; it is 11 characters plus the abbreviation for an offset under 100 hours |
| TimezoneFormat.RewriteDateString | content/modules/interceptors/timezone.js:69-79 | the patched `toString`: no match, no change; otherwise the leftmost `GMT±HHMM (zone)` is replaced by the profile's stamp and the rest is kept |
| TimezoneFormat.StampMatches | content/modules/interceptors/timezone.js:77 | for abs(offset) < 6000 the stamp `GMT±HHMM (abbr)` is itself one full match of the pattern |
| TimezoneFormat.ReplaceFirstIdempotent | content/modules/interceptors/timezone.js:77 | replacing with a text that is itself a full match is idempotent |
| TimezoneFormat.RewriteIdempotent | content/modules/interceptors/timezone.js:69-79 | rewriting a date string twice is rewriting it once |
| TimezoneFormat.NewYorkStamp | content/modules/interceptors/timezone.js:157-183 | the New York profile at -300 stamps `GMT+0500 (EST)` |
| TimezoneFormat.RewriteExample | content/modules/interceptors/timezone.js:69-79 | `10:00:00 GMT+0200 (CEST)` is rewritten to `10:00:00 GMT+0500 (EST)` for New York |
| TimezoneInterception.TimezoneInterceptor.GetTimezoneOffset | content/modules/interceptors/timezone.js:24-28 | the reported offset, for any date, is the one the `±HHMM` text of `getGMTOffset` reads back as |
| TimezoneInterception.TimezoneInterceptor.OffsetAgreesWithText | content/modules/interceptors/timezone.js:24-28 | every date reports the same offset, and the five characters after `GMT` in the `toString` stamp read back as exactly that offset |
| TimezoneInterception.TimezoneInterceptor.InjectOptions | content/modules/interceptors/timezone.js:44-56 | the locale falls back to the profile's; the caller's options object (or a fresh one) gets `WithTimeZone` |
| TimezoneInterception.TimezoneInterceptor.ResolvedOptions | content/modules/interceptors/timezone.js:117-131 | the object returned becomes `Resolved` of itself |
| TimezoneInterception.TimezoneInterceptor.SupportedLocalesOf | content/modules/interceptors/timezone.js:140-154 | the array returned becomes `WithLocale` of itself |

## Left out

- `apply()` and the `intercept*` installers (Proxy and `Reflect` plumbing, `chameleonRegisterIntercepted`, copying the static members of `Intl.DateTimeFormat`, `console` logging) are left out. They only install the handlers modelled above.
- `content/injector.js` and the profile generator are not part of this model; profiles are parameters.
- The seeded generator (`Math.seedrandom`) is foreign code. It is a parameter: a function from a seed to a stream of draws in [0, 1).
- Floating point is left out. Reals stand for JavaScript numbers, so IEEE rounding, NaN and infinities are not modelled. The `Float32Array` rounding of analyser and `AudioParam` values is not modelled either.
- Native rendering is a parameter or a plain sequence operation. This covers text drawing, `toDataURL`/`toBlob` encoding, the analyser's own fill of its array, `AudioParam` range clamping and date formatting. The analyser handlers start from the array as the native call left it.
- CanvasInterception.CanvasInterceptor.Export: the watermark is recorded as a fill in the canvas's `fills` but is not blended into its pixels. The returned bitmap, and any later read, leaves out that 1x1 rectangle drawn at global alpha 0.01 (canvas.js:188-195). Blending is native rendering.
- CanvasNoise.GetContextStep: the kinds a browser supports are fixed at `2d`, `webgl` (also asked for as `experimental-webgl`), `webgl2`, `bitmaprenderer` and `webgpu`. Option dictionaries and a failed WebGL initialisation are not modelled.
- `interceptDynamicsCompressorNode` (audio.js:251-256) has an empty body and is not modelled.
- The `console.warn` in `applyCanvasNoise`'s `catch` is left out. The only exception modelled is the failed read of a tainted canvas.
- `webkitAudioContext` and `webkitOfflineAudioContext` are the same classes under another name; they are not modelled separately.
- CanvasNoise.TextArgs: does not model a non-number coordinate. JavaScript `+=` would concatenate a string there; the model keeps the argument as it is.
- AudioInterception.AudioInterceptor.NewOfflineAudioContext: does not model the single-options-object form `new OfflineAudioContext({sampleRate, ...})`. The source leaves it alone too, because it rewrites only a third positional argument.
- TimezoneFormat.Abbreviation: a zone name equal to an `Object.prototype` member (for instance `constructor`) is looked up in a finite map. The JavaScript lookup would find the inherited member instead.
- TimezoneFormat.ReplaceFirst: `$` patterns in the replacement text are not modelled. The stamp never contains `$`, since none of the abbreviations and no offset digit does.
- TimezoneFormat.GmtOffset: only integer offsets are modelled. A fractional profile offset would print a fractional minute field.
- TimezoneInterception.TimezoneInterceptor.InjectOptions: a truthy non-object options argument (a number, a string or `true`) is left out. The class is module code and so runs in strict mode. There, `options.timeZone = …` on such a primitive throws a `TypeError` before the native call is reached.
- `Intl.DateTimeFormat(...)` called without `new` goes through the Proxy's missing `apply` trap, so it gets no injection. The model covers only `new`.

## Behaviour as written

The model follows the code where it departs from what its comments or design suggest:

- **One guard set for two purposes.** `appliedCanvases` serves both `getContext` (text offsets installed) and `applyCanvasNoise` (canvas already noised). `applyCanvasNoise`'s own `getContext('2d')` marks the canvas. So does any page call to `getContext('2d')`, and after that the canvas is never noised (`ContextCallDisablesNoise`).
- **Empty and tainted canvases.** They still end up in the guard set (`NoiseSkipsEmptyOrTainted`), because the nested `getContext` marked them before the size check and the failed read.
- **Image-data noise twice.** The pixel read inside `applyCanvasNoise` goes through the patched `getImageData`, and the write goes through the patched `putImageData`. So the bitmap gets image-data noise twice, on top of the edge noise (`FullNoiseStages`, `WriteBackStages`). Every later `getImageData` adds fresh noise.
- **Offline audio contexts.** The oscillator and compressor patches sit on `AudioContext.prototype`. `OfflineAudioContext` does not inherit from that prototype, so its oscillators and compressors are not jittered (`CreateOscillator`, `CreateDynamicsCompressor`).
- **Start-time shift range.** The shift can be exactly -0.00005 (draw 0), so its bound is `[-0.00005, 0.00005)` (`StartShift`).
- **Offset sign.** The offset follows the `getTimezoneOffset` convention: minutes behind UTC, so -300 is five hours ahead of UTC. That offset is printed `GMT+0500`, and text and offset agree (`OffsetAgreesWithText`). A profile written for UTC-5 must therefore carry +300, not -300.

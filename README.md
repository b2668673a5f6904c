# Danmaku and particle-field schedulers, modelled in Dafny

This project models the two per-frame animation schedulers of the demo and the data
preparation that feeds them. All of it comes from `demo/main.ts` and `demo/particle.ts`.

- **Danmaku scheduler (`demo/main.ts`).**
  - The comment loader decodes mode-7 comment records, filters them and sorts them by play
    time. `loader.assign` merges objects in place.
  - A `ThreeRender` per comment derives the comment's rates and is initialised on its first
    shown frame.
  - `ThreeManager.danmakuRender` fades, ages and moves every due comment on each frame.
  - `ThreeManager.reset` places every comment afresh after a seek.
  - `timeDiffCompute` and `render` keep the frame clock, which a pause clears.
  - The `mm:ss` label of the video's time is modelled too.
- **Particle field (`demo/particle.ts`).**
  - `ParticleData.calculate` cuts an RGBA image into columns of opaque pixels, one list per
    half.
  - The `ParticleManager` constructor makes one `Particle` per pixel, with a staggered delay.
  - `animate`, `particleRender` and `render` fade and jitter every point inside its window
    and tear it down afterwards.

Modules, one file each:

- `Options`, `Records`: the option type and the decoded comment record.
- `JsText`: the JavaScript string operations used by the loader.
- `Loader`: `loader.parse` after the network I/O, and `loader.assign`.
- `FrameClock`: the delta clock of `timeDiffCompute`, shared by both schedulers.
- `TimeLabel`: the `mm:ss` label.
- `DanmakuItem`: one comment's state as a value. It holds the specification functions
  `Tick` and `ResetItem` and the lemmas about them.
- `DanmakuScheduler`: the classes `ThreeRender` and `ThreeManager`. Their methods are
  proved against `DanmakuItem` and `FrameClock`.
- `ParticleImage`: the specification of `calculate`, and the class `ParticleData` whose
  loops are proved against it.
- `ParticleField`: the specification of `animate`, and the classes `Particle` and
  `ParticleManager`.

The time is the video's current time in seconds, or `performance.now()` in milliseconds, as
in the source. It is a `real`, and so are opacities and positions.

The three.js scene is a ghost `inScene` flag on each comment and each particle. A comment's
flag says whether its `groupParent` is a child of the scene. Teardowns of a particle
(removal and the two `dispose` calls) are counted in a ghost `teardowns` field.

`performance.now()`, `video.currentTime`, `video.paused` and every `Math.random()` result
are parameters. `parseFloat`, `parseInt` and `JSON.parse` are given functions or values.

## Model

| member | source | states |
|---|---|---|
| JsText.Trim | demo/main.ts:55 | the result is no longer than the text, and neither starts nor ends with whitespace |
| JsText.TrimIsMiddleSlice | demo/main.ts:55 | the trimmed text is a slice of the text with only whitespace before and after it; it is empty exactly when the text is all whitespace |
| JsText.Split | demo/main.ts:52 | split gives at least one piece, and no piece holds the separator |
| JsText.JoinSplit | demo/main.ts:52 | joining the pieces of a split with the same separator gives back the text |
| JsText.NormalizeBreaks | demo/main.ts:68 | after the replacement no "/n", "\n" written out, line feed or CR LF is left in the text |
| JsText.NormalizeBreaksFixes | demo/main.ts:68 | a text without any of those markers is left unchanged |
| JsText.NormalizeBreaksIdempotent | demo/main.ts:68 | normalising twice is normalising once |
| JsText.Hex | demo/main.ts:81 | toString(16) writes at least one hexadecimal digit, and only those |
| JsText.HexRoundTrip | demo/main.ts:81 | reading back the hexadecimal text of n gives n |
| JsText.HexValueAppend | demo/main.ts:81 | the value of a concatenation is the value of the head shifted by the tail's digits, plus the tail's value |
| JsText.HexValueBound | demo/main.ts:81 | a run of k hex digits has a value below 16 to the power k |
| JsText.HexValueZeros | demo/main.ts:81 | a run of zeros has value 0 |
| Loader.StringMethodsThrow | demo/main.ts:59-68 | split on content[2] and replace on content[4] throw unless the array has both and both are strings |
| Loader.Field | demo/main.ts:53 | an index past the end of the split reads as the empty text, as undefined does for parseInt and parseFloat |
| Loader.Accepted | demo/main.ts:53-57 | an element passes the loop's filters exactly when parseInt of the second "p" field is 7 and its trimmed innerHTML matches the bracket pattern |
| Loader.MatchesContentPattern | demo/main.ts:56-57 | the text starts with '[', ends with ']' and holds no line terminator between them |
| Loader.ColorOf | demo/main.ts:81 | the colour is always seven characters long and starts with '#' |
| Loader.ColorEncodesLow24 | demo/main.ts:81 | for a non-negative colour number, the six characters after '#' are hex digits whose value is the number modulo 0x1000000 |
| Loader.ZeroPadValue | demo/main.ts:81 | the "000000" prefix does not change the value |
| Loader.LastSixDigits | demo/main.ts:81 | slice(-6) keeps the value modulo 0x1000000 |
| Loader.SplitLastSix | demo/main.ts:81 | taken modulo 0x1000000, a hexadecimal text is worth its last six digits |
| Loader.Decode | demo/main.ts:53-85 | a record is skipped exactly when it is not mode 7 or its trimmed content is not bracketed; an accepted record throws exactly when JSON.parse fails or content[2] or content[4] is missing or not a string; a kept record is mode 7, has a seven-character colour and a text without line-break markers |
| Loader.DecodeFields | demo/main.ts:59-84 | the built record is mode 7, has a seven-character colour and a normalised text |
| Loader.OpacityPairSplit | demo/main.ts:59-66 | for content[2] = "a-b", with a and b free of '-', the start opacity is parseFloat(a) and the end opacity parseFloat(b) |
| Loader.SplitWithoutSeparator | demo/main.ts:59 | a text without the separator splits into itself alone |
| Loader.SplitAround | demo/main.ts:59 | a text split at its first separator gives the head followed by the split of the rest |
| Loader.Outcomes | demo/main.ts:50-88 | one outcome per record, each the decoding of that record |
| Loader.Collect | demo/main.ts:50-88 | without a throw, the loop pushes at most one record per element |
| Loader.CollectPrefix | demo/main.ts:50-88 | the collected records of one more element are the previous ones with that element's outcome pushed |
| Loader.Insert | demo/main.ts:89-91 | inserting adds exactly the one record to the multiset, and the head is the smaller of it and the old head |
| Loader.InsertSorted | demo/main.ts:89-91 | inserting into a list sorted by play time keeps it sorted |
| Loader.SortByPlayTime | demo/main.ts:89-91 | the sort is a permutation and its result is sorted by ascending play time |
| Loader.AtPlayTime | demo/main.ts:89-91 | the records of one activation time, in their order |
| Loader.InsertStable | demo/main.ts:89-91 | inserting a record changes only its own time's group, where it goes first |
| Loader.SortStable | demo/main.ts:89-91 | the sort is stable: records with equal play times keep their input order |
| Loader.ParseResult | demo/main.ts:50-92 | the promise never resolves exactly when the loop throws; otherwise it resolves with the pushed records, permuted into ascending play time |
| Loader.Parse | demo/main.ts:50-91 | the push loop and sort give the value the promise resolves with, or None when an element throws |
| Loader.CollectNoneSticks | demo/main.ts:50-88 | once an element has thrown, the whole run has |
| Loader.CollectThrowsIff | demo/main.ts:50-88 | collecting fails exactly when some outcome throws |
| Loader.CollectCounts | demo/main.ts:50-88 | one record is pushed per kept outcome |
| Loader.CollectMembers | demo/main.ts:50-88 | a record is pushed exactly when some outcome keeps it |
| Loader.CountKeptIsAccepted | demo/main.ts:53-57 | when nothing throws, the kept outcomes are exactly the accepted records, as counted |
| Loader.ParseFailsIff | demo/main.ts:50-92 | the promise never resolves exactly when some accepted element throws |
| Loader.ParseSortedAndCounted | demo/main.ts:53-92 | otherwise it resolves sorted by ascending play time, with one record per accepted element |
| Loader.ParseStable | demo/main.ts:50-92 | records with equal play times come out in the order of the elements they were decoded from |
| Loader.ParseMembers | demo/main.ts:85-92 | the records it resolves with are exactly those the accepted elements decode to |
| Loader.ParseRecordsWellFormed | demo/main.ts:53-85 | every record it resolves with is mode 7, has a seven-character colour and a text whose line breaks are all '\r' |
| Loader.JsObject.constructor | demo/main.ts:99 | `{}` has no properties |
| Loader.MergeLastWriterWins | demo/main.ts:100-109 | a property some source has ends with the value of the last source that has it |
| Loader.MergeKeepsUntouched | demo/main.ts:100-109 | a property is in the result exactly when it is in the target or in a source, and one no source has keeps the target's value |
| Loader.Sources | demo/main.ts:100-102 | one property map per argument after the first |
| Loader.SourcesAt | demo/main.ts:100-102 | a null argument, or the target itself, contributes no property; any other argument contributes its own properties |
| Loader.MergeAll | demo/main.ts:100-109 | the merge keeps every property of the target and gains every property of each source |
| Loader.CopyOwnProperties | demo/main.ts:103-107 | the for-in loop overwrites the target with every own property of the source, and copying an object onto itself changes nothing |
| Loader.CopyArguments | demo/main.ts:100-109 | the target ends as its old properties merged with every later argument's, in order |
| Loader.Assign | demo/main.ts:97-111 | with fewer than two arguments args[0] is returned untouched; otherwise the properties are merged into args[0] itself, or into a new object when it is null, and that object is returned |
| FrameClock.Compute | demo/main.ts:249-258 | the new prevTime is now; with a previous time set, timeDiff is the time since it; otherwise timeDiff is kept |
| FrameClock.Deltas | demo/main.ts:249-258 | one time delta per frame |
| FrameClock.DeltasTelescope | demo/main.ts:249-258 | the deltas over a run of frames add up to the time between the clock's previous time and the last frame |
| FrameClock.Pause | demo/main.ts:239-244 | a paused frame clears the clock |
| FrameClock.ResumeWithoutJump | demo/main.ts:239-258 | after a pause the first frame measures no time, and the deltas add up to the time since that first frame |
| TimeLabel.IntOfText | demo/main.ts:148 | parseInt of a number's text: truncation toward zero when toString writes it without an exponent (0, or a magnitude in [1e-6, 1e21)); otherwise the leading significant digit, 1 to 9, with the number's sign |
| TimeLabel.LeadingDigit | demo/main.ts:148 | the first significant digit of a positive number is between 1 and 9 |
| TimeLabel.RemBySixty | demo/main.ts:148 | % 60 of a non-negative number lies in [0, 60), and leaves a number below 60 as it is |
| TimeLabel.MinutesShown | demo/main.ts:148 | the first number shown is below 60 |
| TimeLabel.SecondsShown | demo/main.ts:148 | the second number shown is below 60 |
| TimeLabel.Decimal | demo/main.ts:148 | toString writes one or more decimal digits, exactly one for numbers below 10 |
| TimeLabel.TwoDigits | demo/main.ts:150 | two decimal digits whose value is the number |
| TimeLabel.Label | demo/main.ts:148-150 | the label is the two numbers shown, each written with exactly two digits, around a colon: always five characters |
| TimeLabel.LabelParts | demo/main.ts:148 | truncated, the two remainders are the whole minutes of t modulo an hour and its whole seconds modulo a minute |
| TimeLabel.LabelIsMinutesSeconds | demo/main.ts:148-158 | when neither remainder is written with an exponent, the label is "mm:ss" of the whole minutes modulo an hour and the whole seconds modulo a minute |
| TimeLabel.LabelOfHalfMicrosecond | demo/main.ts:156-158 | half a microsecond is labelled "08:05": both remainders are below 1e-6, and their texts' leading digits are shown |
| TimeLabel.LabelOfFirstSecond | demo/main.ts:156-167 | a time in the first second is labelled "00:00", the text the ended handler writes, exactly when it is 0 or at least 60 microseconds |
| TimeLabel.PadsToTwoDigits | demo/main.ts:149-150 | joining two numbers below 100 with ':' and padding lone digits with "0" writes each with two digits |
| TimeLabel.PadJoined | demo/main.ts:149-150 | the replacement pads each of the two runs of digits on its own |
| TimeLabel.PadSegment | demo/main.ts:150 | a run of one or two digits between word boundaries is padded to two, and the replacement carries on after it |
| TimeLabel.ShortDecimal | demo/main.ts:148 | below 100, toString gives one or two digits, and a lone one padded with "0" is the two-digit form |
| DanmakuItem.RatesOf | demo/main.ts:446-460 | the opacity, x and y speeds times the duration or the motion time give the opacity drop and the distances; the motion and delay times are the milliseconds in seconds |
| DanmakuItem.LineColor | demo/main.ts:462-467 | the outline colour is "#686868" for the text colour "#000000" and "#000000" for every other; it is seven characters long and differs from the text colour |
| DanmakuItem.Init | demo/main.ts:471-479 | init puts the item at its start point with its start opacity, in the scene, and changes nothing else |
| DanmakuItem.Tick | demo/main.ts:262-289 | a frame outside the gate leaves the item as it is; inside it the item is initialised, ages by exactly timeDiff, and is finished exactly when its duration is over |
| DanmakuItem.TickGated | demo/main.ts:263 | a frame changes nothing for a finished item or one whose play time has not come |
| DanmakuItem.TickProgress | demo/main.ts:263-289 | inside the gate the item is initialised once, fades by exactly opacitySpeed times the frame's seconds, ages by exactly timeDiff, and is finished and out of the scene exactly when its duration is over |
| DanmakuItem.TickMoves | demo/main.ts:272-285 | the item moves by the speeds times the frame's seconds only inside the motion window, snaps to the end point on the snap condition, and otherwise stays where it was |
| DanmakuItem.FinishedStaysFinished | demo/main.ts:263-289 | once finished, an item is untouched by every later frame |
| DanmakuItem.DriftIsLinear | demo/main.ts:276-279 | moving at a fixed speed over a run of frames covers the speed times the total seconds |
| DanmakuItem.ShownRunFades | demo/main.ts:262-289 | over any run of due frames that does not end its duration, in the delay, the motion or after it, the item stays unfinished, its opacity drifts by opacitySpeed per second from its opacity (or its start opacity, if the run initialises it), and its show time grows by the time that passed |
| DanmakuItem.ShownRunIsLinear | demo/main.ts:262-289 | over such a run the opacity falls by exactly opacitySpeed times the seconds that passed |
| DanmakuItem.GlideStep | demo/main.ts:263-281 | one frame inside the motion window moves and fades the item at its speeds and keeps it initialised and unfinished |
| DanmakuItem.GlideKeepsTime | demo/main.ts:263-281 | over a run of frames inside the window the item stays initialised, unfinished and where it was in the scene, and its show time grows by the time that passed |
| DanmakuItem.GlideMovesX | demo/main.ts:276-278 | over such a run x follows the x speed |
| DanmakuItem.GlideMovesY | demo/main.ts:277-279 | over such a run y follows the y speed |
| DanmakuItem.GlideFades | demo/main.ts:268-270 | over such a run the opacity follows the opacity speed |
| DanmakuItem.GlideIsLinear | demo/main.ts:268-281 | over such a run position and opacity change by the speeds times the seconds that passed |
| DanmakuItem.GlideCoversWindow | demo/main.ts:272-281 | a full motion window from init's position carries the item exactly from its start point to its end point |
| DanmakuItem.DriftCovers | demo/main.ts:276-279 | drifting at rate k for t seconds covers k times t |
| DanmakuItem.ZeroDeltaHoldsStill | demo/main.ts:268-281 | a frame with no elapsed time neither fades nor ages an initialised item, and moves it only by the snap |
| DanmakuItem.ResetMotionTime | demo/main.ts:324-329 | the motion time handed out is at most animateTime, and is the time since the delay whenever that is not more |
| DanmakuItem.ResetItem | demo/main.ts:309-338 | before its play time an item is uninitialised, not shown and out of the scene; an active one is in the scene, initialised, aged and faded by exactly the time since its play time; a past one is finished with its whole duration shown, out of the scene, with isInited kept |
| DanmakuItem.ResetAfterMotionAtEnd | demo/main.ts:319-333 | an active item seeked past the end of its motion sits exactly on its end point |
| DanmakuItem.ResetDuringMotionOnPath | demo/main.ts:319-333 | an active item sits where moving from its start point for the motion time puts it |
| DanmakuItem.ResetDuringDelayMovesBackwards | demo/main.ts:324-333 | an active item seeked into its delay is moved backwards past its start point |
| DanmakuItem.ResetActiveForgetsHistory | demo/main.ts:313-334 | for an active item the seek result does not depend on the item's past |
| DanmakuItem.ResetIdempotent | demo/main.ts:302-341 | seeking to the same time twice is seeking once |
| DanmakuItem.ResetOverKeepsIsInited | demo/main.ts:335-338 | the past case keeps isInited: a never-shown item stays uninitialised and a shown one stays initialised |
| DanmakuScheduler.ThreeRender.constructor | demo/main.ts:443-469 | the rates are RatesOf and the outline colour LineColor of the comment; the item is not initialised, not finished and out of the scene |
| DanmakuScheduler.ThreeRender.Init | demo/main.ts:471-479 | the fields become DanmakuItem.Init of the old ones |
| DanmakuScheduler.ThreeRender.Frame | demo/main.ts:262-297 | the fields become DanmakuItem.Tick of the old ones |
| DanmakuScheduler.ThreeRender.Reset | demo/main.ts:308-338 | the fields become DanmakuItem.ResetItem of the old ones |
| DanmakuScheduler.ThreeManager.constructor | demo/main.ts:210-233 | one new, distinct ThreeRender per comment, in order, and a cleared clock |
| DanmakuScheduler.ThreeManager.TimeDiffCompute | demo/main.ts:249-258 | the clock becomes FrameClock.Compute of the old one |
| DanmakuScheduler.ThreeManager.DanmakuRender | demo/main.ts:260-300 | every comment advances by exactly one Tick with the clock's timeDiff |
| DanmakuScheduler.ThreeManager.Render | demo/main.ts:236-247 | one frame of every comment with the fresh delta; another frame is requested exactly when the video plays, and a paused frame clears the clock |
| DanmakuScheduler.ThreeManager.Reset | demo/main.ts:302-341 | every comment becomes ResetItem of its old state, and the scene then holds exactly the active comments |
| DanmakuScheduler.ResetIgnoresScene | demo/main.ts:304-306 | emptying the scene first makes no difference to an item's seek result |
| DanmakuScheduler.ResetInSceneIffActive | demo/main.ts:311-318 | after a seek a comment is in the scene exactly when it is active |
| ParticleImage.PosInBounds | demo/particle.ts:173-174 | the four bytes of every pixel lie inside the image data |
| ParticleImage.Datum | demo/particle.ts:175-185 | the record of a pixel carries its coordinates and its alpha |
| ParticleImage.DropEmpty | demo/particle.ts:191 | after the filter no column is empty, and none is added |
| ParticleImage.LeftColumns | demo/particle.ts:170-191 | the left list holds at most w/2 columns, none of them empty |
| ParticleImage.RightColumns | demo/particle.ts:192-213 | the right list holds at most w/2 columns, none of them empty |
| ParticleImage.CountColumnRows | demo/particle.ts:172-187 | a pixel is listed in its column once when opaque and in the rows scanned, and never otherwise |
| ParticleImage.CountColumnsDown | demo/particle.ts:170-190 | a pixel is listed once in a range of scanned columns when opaque and its column is in the range, and never otherwise |
| ParticleImage.CountDropEmpty | demo/particle.ts:191 | the filter loses no pixel |
| ParticleImage.ExactlyOnce | demo/particle.ts:170-213 | every opaque pixel appears exactly once across the two lists, and a transparent one never |
| ParticleImage.CountLeft | demo/particle.ts:170-191 | the left list holds a pixel once exactly when it is opaque and left of w/2 |
| ParticleImage.CountRight | demo/particle.ts:192-213 | the right list holds a pixel once exactly when it is opaque and at or right of w/2 |
| ParticleImage.CountHalf | demo/particle.ts:170-213 | a filtered half lists a pixel once exactly when it is opaque and its column was scanned |
| ParticleImage.ColumnRowsShape | demo/particle.ts:172-187 | a scanned column holds only opaque pixels of that column, in ascending row order |
| ParticleImage.ColumnsDownShape | demo/particle.ts:170-190 | one scanned column per column from the start column down, each holding only that column's opaque pixels |
| ParticleImage.DropEmptyShape | demo/particle.ts:191 | the filter keeps the columns in descending order and each of them within the range |
| ParticleImage.ListsShape | demo/particle.ts:170-213 | left columns lie in [0, w/2) and right ones in [w/2, w), each in descending column order, with only opaque pixels in ascending rows |
| ParticleImage.HalfShape | demo/particle.ts:170-213 | the same for one filtered half |
| ParticleImage.OpacityInRange | demo/particle.ts:178-200 | a listed pixel's opacity is its alpha over 255, in (0, 1] |
| ParticleImage.TransparentColumnsEmpty | demo/particle.ts:172-187 | a column of a fully transparent image lists nothing |
| ParticleImage.TransparentDropsAll | demo/particle.ts:191 | all of its columns are dropped |
| ParticleImage.TransparentImageIsEmpty | demo/particle.ts:191-213 | a fully transparent image yields two empty lists |
| ParticleImage.TransparentLeftEmpty | demo/particle.ts:170-191 | its left list is empty |
| ParticleImage.TransparentRightEmpty | demo/particle.ts:192-213 | its right list is empty |
| ParticleImage.ParticleData.constructor | demo/particle.ts:129-134 | the image's size, and two empty lists |
| ParticleImage.ParticleData.Calculate | demo/particle.ts:164-214 | the lists become LeftColumns and RightColumns of the image |
| ParticleImage.ParticleData.ScanLeftHalf | demo/particle.ts:170-190 | the left list holds one scanned column per left column, from w/2 - 1 down to 0 |
| ParticleImage.ParticleData.ScanRightHalf | demo/particle.ts:192-212 | the right list holds one scanned column per right column, from w - 1 down to w/2 |
| ParticleImage.ParticleData.ScanLeft | demo/particle.ts:171-188 | slot index of the left list becomes column i's opaque pixels, top to bottom, and nothing else changes |
| ParticleImage.ParticleData.ScanRight | demo/particle.ts:193-210 | slot index of the right list becomes column i's opaque pixels, top to bottom, and nothing else changes |
| ParticleField.JitterBelow | demo/particle.ts:50-56 | the random spread j * r * 6 is at least 0, below 6j, and 0 for the first point |
| ParticleField.LeftDelayBounds | demo/particle.ts:50 | a left point's delay lies in [30i + 400, 30i + 400 + 6j), and is exactly 30i + 400 for j = 0 |
| ParticleField.RightDelayBounds | demo/particle.ts:56 | a right point's delay lies in [20i, 20i + 6j), and is exactly 20i for j = 0 |
| ParticleField.Animated | demo/particle.ts:102-114 | every call adds the frame's time to showTime; the point is torn down, and taken out of the scene, exactly on the frames past its window |
| ParticleField.AnimateAges | demo/particle.ts:103 | every call adds the frame's time to showTime, and before the window nothing else changes |
| ParticleField.AnimateInWindow | demo/particle.ts:104-108 | inside the window the opacity falls by exactly sOpacity times timeDiff, x grows by less than timeDiff / 4 and y moves by less than timeDiff / 6 |
| ParticleField.AnimateAfterWindow | demo/particle.ts:109-113 | after the window neither opacity nor position changes, and the point is torn down again |
| ParticleField.FrozenAfterWindow | demo/particle.ts:109-113 | once past its window, with time not running backwards, a point never changes opacity or position again, and the teardown runs on every frame |
| ParticleField.FadeIsLinear | demo/particle.ts:104-106 | inside the window the opacity falls by sOpacity times the time that passed |
| ParticleField.WholeWindowFadesByPixelOpacity | demo/particle.ts:102-114 | a whole window of 2000 ms takes away exactly the pixel's opacity |
| ParticleField.Particle.constructor | demo/particle.ts:227-241 | sOpacity times the duration is the pixel's opacity; the vertex is (x - 64, -y + 64); no time shown, opacity 1, no offset, in the scene |
| ParticleField.ParticleManager.constructor | demo/particle.ts:47-58 | one new particle per listed pixel, each with its pixel, its column's delay and a fresh state, so an empty list gives no particles; the clock is cleared |
| ParticleField.ParticleManager.NewColumn | demo/particle.ts:48-57 | one new, distinct particle per point of the column, with its delay |
| ParticleField.ParticleManager.TimeDiffCompute | demo/particle.ts:77-86 | the clock becomes FrameClock.Compute of the old one |
| ParticleField.ParticleManager.SetPaused | demo/particle.ts:98-100 | only paused changes |
| ParticleField.ParticleManager.Animate | demo/particle.ts:102-114 | the particle's fields become Animated of the old ones |
| ParticleField.ParticleManager.ParticleRender | demo/particle.ts:116-121 | every particle of the list is animated exactly once |
| ParticleField.ParticleManager.ColumnRender | demo/particle.ts:118-119 | every particle of the column is animated exactly once |
| ParticleField.ParticleManager.Render | demo/particle.ts:88-96 | the clock advances, every right and left particle is animated once, and another frame is requested exactly while paused |

## Left out

- The XMLHttpRequest, the DOMParser and the XML traversal of `loader.parse` (demo/main.ts:35-49) are network and DOM I/O. The model starts from each element's `p` attribute, its innerHTML and the result of `JSON.parse`.
- `parseFloat`, `parseInt` and `JSON.parse` are parameters, not implementations. `parseInt` returns `None` for NaN.
- three.js is not modelled: renderer, camera, scene, materials, meshes, `animate()` and the rotation by `degToRad`. The scene is a ghost flag per comment or particle, and a teardown is a ghost counter.
- Font loading, `textGeometry` and `shapeGeometry` (demo/main.ts:344-417) are left out. They run in an asynchronous callback and depend on the font library's bounding boxes.
- The DOM event handlers, fullscreen and the progress bar (demo/main.ts:113-193) are left out as UI; only the `mm:ss` label is modelled.
- `ParticleData.init` (demo/particle.ts:138-161), `staticCanvas` and `getImageData` are left out as canvas drawing. `calculate` takes the image bytes as a sequence.
- The `style` and `color` strings of a pixel record are not built. The record keeps the r, g, b and alpha bytes they are made from.
- `rendererStats`, `requestAnimationFrame` and `renderer.render` are host services. `render` returns whether another frame is requested.
- `performance.now()`, `video.currentTime`, `video.paused` and `Math.random()` are parameters.
- IEEE floating point is not modelled. Times, opacities and positions are exact reals, so rounding, Infinity and NaN do not arise.
- DanmakuScheduler.ThreeRender.constructor: requires a non-zero duration, a non-zero `aTime` and a numeric `delay` (`Schedulable`), because otherwise JavaScript computes Infinity or NaN rates, which reals cannot express.
- DanmakuScheduler.ThreeManager.constructor: requires every comment to be `Schedulable`, for the same reason, since it builds a ThreeRender per comment.
- DanmakuScheduler.ThreeRender: the text and outline materials always get the same opacity, so one `opacity` field stands for both.
- DanmakuScheduler.ThreeRender: `x` and `y` are undefined until the first `init`; the model starts them at 0, and no contract depends on that value.
- ParticleImage.ParticleData.Calculate: requires an even width, because for odd widths `cols / 2 - 1` is fractional in the source. It also requires both lists to start empty, as they are on the only call.
- TimeLabel.Label: requires a non-negative time. A NaN duration (not yet known) gives the text "NaN", which reals cannot express.
- TimeLabel.IntOfText: the digits of an IEEE double's shortest decimal text can differ from the exact real's after rounding (0.1 + 0.2); the model reads the exact value.
- Loader.SortByPlayTime: `Array.prototype.sort` is stable since ECMAScript 2019, and the model's insertion sort is stable too (SortStable). A stable sort by one key has exactly one result, so the two agree.
- DanmakuItem.GlideCoversWindow: requires that the rates cover each distance in the motion time, instead of naming `RatesOf`. `RatesOf` meets that by its contract.
- ParticleField.ParticleManager: a hole in `particleOfLeft` cannot arise from the constructor's loop, which fills every index, so the lists are plain sequences.

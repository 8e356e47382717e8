# Spotify e-Paper touch controller: a Dafny model

This project models the logic of a small Raspberry Pi program. The program
shows the current Spotify track on a Waveshare e-Paper panel with a
touchscreen. The panel has album art on the left, the title and artist on
the right, and three buttons below them (Play/Pause, Next, Like). A touch
backend thread maps raw touches to panel coordinates and hit-tests them
against the laid-out components. It then puts the name of the touched
component on an action queue. The main loop drains that queue through a
per-name debounce and issues playback commands. It also polls the playback
service and redraws the display only when what it would show has changed.

Modules:

- `Wrappers`, `Bytes` (wrappers.dfy): `Option` and the `byte` type.
- `Calibration` (calibration.dfy): `_map_axis` and the portrait-to-landscape
  rotation. Python's `int(a / b)` is modelled as exact division truncated
  toward zero (`TruncDiv`).
- `TextFit` (text_fit.dfy): `_fit_text`. The rendered width of a string is
  a function parameter standing for `draw.textlength`.
- `Layout` (layout.dfy): `_landscape_image`, the box geometry of
  `_render_layout`, and the first-match hit test both touch loops use.
- `Gt1151` (gt1151.dfy): the GT1151 driver class. The I2C bus is a class
  with a register file, an auto-incrementing register pointer and a log of
  every transfer.
- `TouchLoops` (touch_loops.dfy): `_touch_loop_evdev` is modelled as a fold
  over a finite prefix of the input-event stream. `_touch_loop_gt1151` is
  modelled over a finite run of `read_points` results. The queue is the
  sequence of names put on it.
- `ControlLoop` (control_loop.dfy): one pass of `main`'s loop. `Tick` is
  the specification function, and `Scheduler.Step` is the imperative loop
  body proved equal to it.

Some behaviour of the code is easy to misread, and the model follows the
code exactly:

- The evdev backend queues a name on every `SYN_REPORT` while the finger is
  down, where one might expect one name per touch
  (`HeldTouchQueuesEveryReport`).
- The two backends rotate under different conditions. The GT1151 backend
  rotates whenever the canvas is rotated. The evdev backend rotates only if
  both axes also have a range.
- The width the touch loops receive is the width of the image as sent to
  the panel, which is portrait again after rotation. With it the rotated
  point lands on the landscape canvas (`TouchLandsOnCanvas`).

## Model

| member | source | states |
|---|---|---|
| Calibration.TruncDiv | src/main.py:242 | `int(a / b)`: the quotient truncated toward zero. Its sign follows the operands, and `abs(q*b) <= abs(a) < abs(q*b) + abs(b)`. |
| Calibration.MapAxis | src/main.py:238-242 | `_map_axis` itself (no contract of its own). Its properties are `MapAxisPassThrough`, `MapAxisRange`, `MapAxisLowEnd`, `MapAxisHighEnd`, `MapAxisMonotone` and `MapAxisExamples`. |
| Calibration.MapAxisPassThrough | src/main.py:238-240 | With a missing bound or `max <= min`, the raw value is returned unchanged. |
| Calibration.MapAxisRange | src/main.py:238-242 | With calibrated bounds and `size >= 1`, every value maps into `0 .. size-1`, including values outside the bounds. |
| Calibration.MapAxisLowEnd | src/main.py:241-242 | Values at or below `min` are clamped and map to 0. |
| Calibration.MapAxisHighEnd | src/main.py:241-242 | Values at or above `max` are clamped and map to `size-1`. |
| Calibration.MapAxisMonotone | src/main.py:241-242 | The mapping is monotone in the raw value. |
| Calibration.MapAxisExamples | src/main.py:238-242 | With bounds 0..99, raw 10 maps to 30 on a 300-pixel axis and raw 20 maps to 30 on a 150-pixel axis. |
| Calibration.Rotate | src/main.py:297 | `(x, y)` goes to `(y, width-1-x)`. An `x` on the portrait axis gives a second coordinate in `0 .. width-1`. |
| Calibration.Unrotate | src/main.py:297 | The inverse map keeps the range. |
| Calibration.RotateRoundTrip | src/main.py:297 | Rotation and its inverse undo each other, in both orders, so no two touches collide. |
| TextFit.Shorten | src/main.py:51-57 | The trimming loop as a recursive function (no contract of its own). `ShortenIsLongestFit` states what it returns. |
| TextFit.Fitted | src/main.py:47-57 | `_fit_text` as a function (no contract of its own). `FittedSpec` states its properties, and `FitText` is proved equal to it. |
| TextFit.FitText | src/main.py:47-57 | The loop returns exactly `Fitted`, the specification of the trim-until-fits search. |
| TextFit.ShortenIsLongestFit | src/main.py:51-57 | The result is the longest prefix-plus-`...` that fits. The bare `...` is returned exactly when no candidate fits. |
| TextFit.FittedSpec | src/main.py:47-57 | A line that fits is unchanged. Otherwise the result is a proper prefix plus `...`, and it fits unless it is the bare fallback. A line that does not fit comes back unchanged only if it is `...`. |
| TextFit.EllipsisMayOverflow | src/main.py:57 | The fallback `...` may itself be wider than the column: "hello" in 2 units gives "...". |
| Layout.HitTest | src/main.py:298-304 | No name exactly when no box contains the point. A name returned is that of a box containing the point. |
| Layout.HitTestUnique | src/main.py:298-302 | With pairwise disjoint boxes, a point inside box `k` resolves to component `k`. |
| Layout.Landscape | src/main.py:60-63 | The canvas is never taller than wide. It is rotated exactly when the panel is portrait, with the sides swapped then and kept otherwise. |
| Layout.Components | src/main.py:211-218 | Six components named Art, Title, Artist, Play/Pause, Next, Like, in that order. |
| Layout.RenderLayout | src/main.py:72-220 | The canvas is `_landscape_image`'s and the components are the layout for that canvas. |
| Layout.LayoutDisjoint | src/main.py:82-133 | On every landscape canvas the six boxes are pairwise disjoint. |
| Layout.LayoutHitTest | src/main.py:211-218 | A touch inside a laid-out box always resolves to that box's name. |
| Layout.ButtonRow | src/main.py:110-133 | The three buttons share top and bottom, are each `button_width` wide, and sit `button_gap` apart from left to right. |
| Layout.ButtonsInsideColumn | src/main.py:98-133 | When the right column is at least two gaps wide, the row starts at the column and ends inside it. |
| Layout.ArtSquare | src/main.py:82-98 | The art area is a `height-8` square at (4, 4), and the right column starts one margin after it. |
| Layout.BoxesProper | src/main.py:82-133 | On a canvas at least 9 high and `height+19` wide, every box has `x0 < x1` and `y0 < y1`. |
| Layout.LayoutIgnoresContent | src/main.py:72-220 | The boxes depend only on the panel size, not on title, artist, art or play state. |
| Layout.PortraitPanelLayout | src/main.py:60-133 | The concrete boxes of the 122 x 250 portrait panel. |
| Gt1151.RegSplitRoundTrip | src/touch_gt1151.py:63-68 | For 16-bit registers, `(reg >> 8) & 0xFF` and `reg & 0xFF` select `reg` again. |
| Gt1151.PointCount | src/touch_gt1151.py:86 | `status & 0x0F` is in `0 .. 15`. |
| Gt1151.StatusReady | src/touch_gt1151.py:81 | Bit 7 of the status byte, written as `status >= 0x80` (no contract of its own). `NotReadyReadsNothing` and `ReadyReadsAllPoints` use it. |
| Gt1151.RegHigh | src/touch_gt1151.py:65 | The command byte `(reg >> 8) & 0xFF` (no contract of its own). `RegSplitRoundTrip` states that it and `RegLow` select the register again. |
| Gt1151.RegLow | src/touch_gt1151.py:64 | The first data byte `reg & 0xFF` (no contract of its own). See `RegSplitRoundTrip`. |
| Gt1151.PointsFrom | src/touch_gt1151.py:79-102 | What `read_points` returns for a register file. A result holds the announced number of points, between 1 and 5, and the `i`-th is decoded from slot `i` of the bytes from 0x814F. |
| Gt1151.ReadPointsTransfers | src/touch_gt1151.py:79-92 | The bus transfers of `read_points` (no contract of its own). `ReadPointsClearsLatchOnce`, `NotReadyReadsNothing` and `ReadyReadsAllPoints` state them. |
| Gt1151.SMBus.WriteI2cBlockData | src/touch_gt1151.py:65 | The bus call: it is logged, the command byte and first data byte select a register, the rest is stored from there, and the pointer ends after it. |
| Gt1151.SMBus.ReadByte | src/touch_gt1151.py:69 | The bus call: it returns the register under the pointer, advances the pointer, and is logged. |
| Gt1151.SMBus.Close | src/touch_gt1151.py:50 | The bus call: it marks the bus closed and changes nothing else. |
| Gt1151.Le16 | src/touch_gt1151.py:98-100 | Combining the two bytes gives a 16-bit value whose high byte is `hi` and whose low byte is `lo`. |
| Gt1151.DecodePoint | src/touch_gt1151.py:95-101 | Record `i` is read from bytes `8i .. 8i+6` (track id, then little-endian x, y and size), and each field is 16-bit. |
| Gt1151.DecodePoints | src/touch_gt1151.py:94-102 | Exactly `count` points, the `i`-th decoded from slot `i`. |
| Gt1151.ReadPointsClearsLatchOnce | src/touch_gt1151.py:79-92 | On every path `read_points` writes the status register exactly once, with 0x00, as its last transfer. |
| Gt1151.NotReadyReadsNothing | src/touch_gt1151.py:80-89 | With the ready bit clear or a count outside 1..5, no point data is read. The result is `None` and the transfers are: status select, one read, clear. |
| Gt1151.ReadyReadsAllPoints | src/touch_gt1151.py:86-102 | With 1..5 points announced, exactly `8*count` bytes are read from 0x814F and `count` points are returned. |
| Gt1151.OnePointExample | src/touch_gt1151.py:79-102 | Status 0x81 with record `[0,10,0,20,0,0,0,0]` gives the single point (10, 20). |
| Gt1151.GT1151.constructor | src/touch_gt1151.py:27-47 | Keeps the bus, address, pins and poll interval, and marks the GPIO pins set up. |
| Gt1151.GT1151.Close | src/touch_gt1151.py:49-53 | Closes the bus and releases the pin pair only if it is still set up, so a repeated close releases nothing. |
| Gt1151.GT1151.WriteReg | src/touch_gt1151.py:63-65 | One block write of `[low] + payload` with command `high`. The payload lands at `reg`. |
| Gt1151.GT1151.ReadReg | src/touch_gt1151.py:67-69 | Returns the `length` registers from `reg` on. The transfers are one register select followed by `length` byte reads. |
| Gt1151.GT1151.ReadVersion | src/touch_gt1151.py:71-73 | The four bytes at 0x8140. |
| Gt1151.GT1151.ReadPoints | src/touch_gt1151.py:79-102 | The result is `PointsFrom` of the registers before the call. The log grows by exactly `ReadPointsTransfers`, and afterwards the status register holds 0. |
| Gt1151.DecodeRecords | src/touch_gt1151.py:94-102 | The decoding loop returns `DecodePoints`. |
| TouchLoops.ReportPoint | src/main.py:294-297 | The hit-tested point is the last position, rotated exactly when the canvas is rotated and both axes have a range. Unrotating gives the position back. |
| TouchLoops.EvdevStep | src/main.py:278-304 | A position event on an axis with a range sets `x` (multi-touch or single-touch X, scaled to `width`) or `y` (Y, scaled to `height`) through `_map_axis` with that axis's own min and max. No other event moves the point. A report while touching queues exactly the hit-test result: the first component whose box holds the report's point, or nothing if no box does. Nothing else queues a name, and a report changes no state. A tracking id sets touching to `id >= 0`, `BTN_TOUCH` sets it to `value == 1`, and no other event changes it. |
| TouchLoops.TouchLoopEvdev | src/main.py:270-304 | The loop queues exactly the names of `EvdevRun` over the events read. |
| TouchLoops.Track | src/main.py:278-290 | The state change for a non-report event (no contract of its own). `EvdevStep` states its effect on `touching`. |
| TouchLoops.EvdevRun | src/main.py:270-304 | The fold of `EvdevStep` over the events (no contract of its own). `EvdevRunAppend` and the lemmas below state its properties. |
| TouchLoops.EvdevRunAppend | src/main.py:291-302 | For every event stream: an appended report while touching appends exactly the hit-test result of the current point, if any box holds it. Any other event appends nothing, and a report keeps the state. |
| TouchLoops.AtMostOneNamePerReport | src/main.py:291-302 | Over any event stream, the number of names queued is at most the number of `SYN_REPORT`s. |
| TouchLoops.NoTouchNoNames | src/main.py:287-293 | Without a touch-down event nothing is queued and touching stays false. |
| TouchLoops.QueuedNamesAreComponents | src/main.py:298-302 | Every queued name is the name of a component. |
| TouchLoops.HeldTouchQueuesEveryReport | src/main.py:289-302 | A finger held through two reports queues its component twice. |
| TouchLoops.Gt1151PositionOnCanvas | src/main.py:341-344 | With both axes calibrated, a GT1151 touch lands inside `width x height` unrotated and `height x width` rotated. |
| TouchLoops.TouchLandsOnCanvas | src/main.py:415-419 | With the size `main` passes to the touch loop, a calibrated touch lands on the landscape canvas of `_landscape_image`. |
| TouchLoops.Gt1151Position | src/main.py:341-344 | The calibrated, possibly rotated position of a GT1151 point (no contract of its own). `Gt1151PositionOnCanvas` and `TouchLandsOnCanvas` bound it. |
| TouchLoops.Gt1151Step | src/main.py:338-351 | No points or `None` queue nothing. Otherwise the name queued is the hit-test result for the first point's calibrated, rotated position: the first component whose box holds it, and none exactly when no box does. |
| TouchLoops.TouchLoopGt1151 | src/main.py:336-351 | The loop queues exactly `Gt1151Run` of the polls. |
| TouchLoops.Gt1151Run | src/main.py:336-351 | The names queued over a run of polls (no contract of its own). `Gt1151RunAppend` states what each poll adds. |
| TouchLoops.Gt1151RunAppend | src/main.py:336-351 | For every run of polls: a poll with points appends exactly the name of the first component whose box holds its first point, if any box does. A poll with no points appends nothing. |
| TouchLoops.Gt1151FirstPointOnly | src/main.py:341-342 | Only the first point counts: points after it never change what a poll queues. |
| TouchLoops.AtMostOneNamePerPoll | src/main.py:336-351 | Over any run of polls, the queue is never longer than the number of polls. |
| TouchLoops.Gt1151PollExample | src/main.py:336-351 | The point (10, 20), calibrated 0..99 on a 300 x 150 canvas, lands at (30, 30), and a poll returning it queues `Art`. |
| TouchLoops.Gt1151EndToEnd | src/main.py:336-351 | A one-point register file, read by the driver, calibrated and hit-tested, queues `Art`. |
| ControlLoop.DrainCommands | src/main.py:430-445 | Draining accepts at most as many names as were queued and only queued names. The accepted names are a subsequence of the queue, in queue order. It issues exactly the accepted names' commands, in that order. |
| ControlLoop.Drain | src/main.py:430-445 | The inner loop as a function (no contract of its own). `DrainCommands`, `DrainTable`, `DrainFiresOncePerName` and `DebounceOne` state its properties. |
| ControlLoop.CommandFor | src/main.py:439-444 | Each action issues at most one command. |
| ControlLoop.ButtonsIssueCommands | src/main.py:211-218 | The three buttons issue Play/Pause, Next and Like, one each. Touching the art, title or artist issues nothing. |
| ControlLoop.ScreenFor | src/main.py:461-471 | The screen never shows an empty title or artist. With no track it shows no art and is not playing. With a track it shows the track's play state and the art given. The title is the track's title, or "Unknown title" when that is empty; the artist likewise falls back to "Unknown artist". |
| ControlLoop.KeyFor | src/main.py:463-470 | A reported track is keyed by its own id. No track gives the fixed `("none", False, ...)` key. The key records exactly the title, artist and play state the screen shows. |
| ControlLoop.SameKeySameText | src/main.py:461-473 | Two reports with the same key would be drawn the same apart from the art. |
| ControlLoop.KeptArt | src/main.py:452-459 | The art kept for a new track: what the service returned when it is non-empty, otherwise none (no contract of its own). `ArtFetchedOnTrackChange` uses it. |
| ControlLoop.Poll | src/main.py:447-480 | The poll half of a pass (no contract of its own). `PollSchedule`, `ArtFetchedOnTrackChange`, `DisplayOnKeyChange` and `NoDeviceFallback` state its properties. |
| ControlLoop.Tick | src/main.py:428-480 | One pass as a function (no contract of its own). It is the specification `Scheduler.Step` is proved against, and the lemmas in this module are about it. |
| ControlLoop.DrainTable | src/main.py:435-438 | The debounce table afterwards stamps exactly the accepted names with `now` and keeps every other entry. No name is removed. |
| ControlLoop.DrainFiresOncePerName | src/main.py:435-438 | With a positive window, a name fires at most once per pass however often it was queued. |
| ControlLoop.DrainFiresEligible | src/main.py:430-445 | With a positive window, a name fires in a pass exactly when it was queued and its window had passed before the pass, whatever else is queued. |
| ControlLoop.FirstEligible | src/main.py:430-445 | Reference filter (no contract of its own): in queue order, the first occurrence of each queued name whose window had passed before the pass. |
| ControlLoop.DrainIsFirstEligible | src/main.py:430-445 | With a positive window, the names a pass fires are exactly `FirstEligible` of the queue, in the same order. |
| ControlLoop.DrainZeroWindowFiresAll | src/main.py:430-445 | With a window of zero or less and no recorded time later than now, every queued action fires, repeats included, in queue order. |
| ControlLoop.DebounceOne | src/main.py:435-445 | Inside the window an action is dropped and the table is untouched. Otherwise it is stamped with `now` and its command is issued. |
| ControlLoop.DebounceAcrossTicks | src/main.py:435-438 | After firing at `t1`, the same name fires again at `t2` exactly when `t2 - t1 >= debounce`. The table then holds the time of the last firing. |
| ControlLoop.FiredActionForcesRedraw | src/main.py:445-480 | An action that fires clears the render key, so a poll in the same pass always redraws. |
| ControlLoop.PollSchedule | src/main.py:447-448 | A poll happens exactly when `now >= next_poll`, and the next one is scheduled `poll` later. Without a poll nothing is fetched or drawn and the track and art are kept. |
| ControlLoop.ArtFetchedOnTrackChange | src/main.py:449-460 | Art is fetched exactly on a poll reporting a track other than the current one, and then `KeptArt` of the answer is kept. A poll reporting the same track keeps the old art. After a poll the current track is the reported one. |
| ControlLoop.DisplayOnKeyChange | src/main.py:461-480 | The display is written exactly on a poll whose render key differs from the last one drawn. A write shows the reported track's text with the art now current. Afterwards the last key drawn is the current key. |
| ControlLoop.NewTrackRedraws | src/main.py:449-480 | A poll reporting a track whose id differs from the last key's is always redrawn, even with the same text. On a track change the write shows the art kept for the new track. |
| ControlLoop.PlayStateChangeRedraws | src/main.py:447-480 | A poll that reports the last drawn track with a different play state redraws, showing the new play state. |
| ControlLoop.SameStateNoRedraw | src/main.py:447-480 | Two polls reporting the same thing, with no action firing between them: the second writes nothing and fetches nothing. |
| ControlLoop.NoDeviceFallback | src/main.py:465-471 | With no track reported, the track and art are dropped. Any write shows "No active device", not playing. |
| ControlLoop.FirstTickDraws | src/main.py:422-480 | The first pass at a non-negative time always polls and draws. |
| ControlLoop.Scheduler.constructor | src/main.py:422-426 | The loop variables start empty, with `next_poll = 0`. |
| ControlLoop.Scheduler.Step | src/main.py:428-480 | One pass updates the loop variables and produces commands, art fetch and display write exactly as `Tick` does. |
| ControlLoop.Scheduler.DrainActions | src/main.py:430-445 | The inner loop leaves the debounce table and commands exactly as `Drain` gives them. It clears the render key exactly when an action fired, and changes nothing else. |
| ControlLoop.Scheduler.PollTrack | src/main.py:447-480 | The poll leaves the loop variables, the art-fetch flag and the display write exactly as `Poll` gives them. |

## Left out

- Drawing: fonts, glyph shapes, album-art resizing and the 1-bit image buffer. Text width is a parameter, and the glyphs only choose play or pause.
- Threads and the queue object: the touch loop and the main loop are modelled separately, joined by the sequence of queued names.
- Time: times are integer milliseconds given to each pass. `time.monotonic`, every `sleep`, and the `poll_ms` sleep of `read_points` are not modelled.
- TruncDiv: computes `int(a / b)` exactly, without the rounding of float division, which matters only for values far beyond touch-panel ranges.
- Device discovery (`_find_touch_device`), the evdev import, `read_loop` and the capabilities query: the axis ranges and the events are parameters.
- The backend choice in `_run_touch_loop` and the thread start in `_start_touch_loop`.
- The playback service (src/spotify_client.py is not part of this model): its answers for a pass are parameters, and commands are recorded, not executed.
- The panel driver (src/epd_driver.py is not part of this model): init, clear, display and sleep.
- src/config.py is not part of this model: the touch settings are parameters.
- The initial "Waiting for Spotify..." screen and the `KeyboardInterrupt` shutdown path.
- Decoding art bytes with `Image.open`: non-empty bytes count as an image, so the `OSError` fallback to no art is not modelled.
- The GT1151 reset pulse, `init`, the GPIO calls, and the ASCII decoding of the version bytes.
- The I2C device itself: the bus is a register file that changes only through the driver's own writes. Register updates the controller makes between polls are not modelled.
- Opening `SMBus(bus)` by bus number: the bus object is given to the constructor.
- Failures. The model takes the playback service, the I2C bus and the event stream as always answering. The code itself does not catch these failures in its loops:
  - An exception from a playback command or from the track or art fetch ends `main` through its `finally`, which puts the panel to sleep.
  - An I2C error in `read_points` ends the GT1151 thread through its `finally`, which closes the driver.
  - An error from `read_loop` ends the evdev thread.

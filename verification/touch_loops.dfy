/**
 * The two touch backends of src/main.py: `_touch_loop_evdev`, a fold over a
 * Linux input-event stream, and `_touch_loop_gt1151`, which polls the GT1151
 * driver. Both turn a touch into the name of the component it lands on and
 * put that name on the action queue, modelled here as the sequence of names
 * the loop has queued.
 */
module TouchLoops {
  import opened Wrappers
  import opened Calibration
  import opened Layout
  import Gt1151
  import Bytes

  // Linux input event types and codes (linux/input-event-codes.h).
  const EvSyn := 0x00
  const EvKey := 0x01
  const EvAbs := 0x03
  const SynReport := 0x00
  const AbsX := 0x00
  const AbsY := 0x01
  const AbsMtPositionX := 0x35
  const AbsMtPositionY := 0x36
  const AbsMtTrackingId := 0x39
  const BtnTouch := 0x14a

  /** One `evdev` input event. */
  datatype InputEvent = InputEvent(evType: int, code: int, value: int)

  /** The range a device reports for an absolute axis. */
  datatype AbsInfo = AbsInfo(min: int, max: int)

  /** The device's axis ranges; `None` for an axis it does not report. */
  datatype Axes = Axes(
    absX: Option<AbsInfo>, absY: Option<AbsInfo>,
    absMtX: Option<AbsInfo>, absMtY: Option<AbsInfo>)

  /** The loop's local state: the last mapped position and the touching flag. */
  datatype TouchState = TouchState(x: int, y: int, touching: bool)

  const InitialState := TouchState(0, 0, false)

  predicate IsReport(e: InputEvent)
  {
    e.evType == EvSyn && e.code == SynReport
  }

  /** An event that puts a finger down: a tracking id of 0 or more, or
      `BTN_TOUCH` pressed. */
  predicate IsTouchDown(e: InputEvent)
  {
    || (e.evType == EvAbs && e.code == AbsMtTrackingId && e.value >= 0)
    || (e.evType == EvKey && e.code == BtnTouch && e.value == 1)
  }

  /** Both axes have a range, so raw positions are portrait panel
      coordinates that can be rotated. */
  predicate CanRotate(axes: Axes)
  {
    (axes.absX.Some? || axes.absMtX.Some?) && (axes.absY.Some? || axes.absMtY.Some?)
  }

  /** The point a report hit-tests: the last position, rotated into landscape
      coordinates when the canvas is rotated and both axes have a range. */
  function ReportPoint(axes: Axes, width: int, needsRotate: bool, s: TouchState): (p: (int, int))
    ensures needsRotate && CanRotate(axes) ==> Unrotate(p.0, p.1, width) == (s.x, s.y)
    ensures !(needsRotate && CanRotate(axes)) ==> p == (s.x, s.y)
  {
    if needsRotate && CanRotate(axes) then Rotate(s.x, s.y, width) else (s.x, s.y)
  }

  /** The new state after an event that is not a report. */
  function Track(axes: Axes, width: int, height: int, s: TouchState, e: InputEvent): TouchState
  {
    if e.evType == EvAbs then
      if e.code == AbsMtPositionX && axes.absMtX.Some? then s.(x := MapAxis(e.value, Some(axes.absMtX.value.min), Some(axes.absMtX.value.max), width))
      else if e.code == AbsMtPositionY && axes.absMtY.Some? then s.(y := MapAxis(e.value, Some(axes.absMtY.value.min), Some(axes.absMtY.value.max), height))
      else if e.code == AbsX && axes.absX.Some? then s.(x := MapAxis(e.value, Some(axes.absX.value.min), Some(axes.absX.value.max), width))
      else if e.code == AbsY && axes.absY.Some? then s.(y := MapAxis(e.value, Some(axes.absY.value.min), Some(axes.absY.value.max), height))
      else if e.code == AbsMtTrackingId then s.(touching := e.value >= 0)
      else s
    else if e.evType == EvKey && e.code == BtnTouch then s.(touching := e.value == 1)
    else s
  }

  /** One event of `_touch_loop_evdev`: the new state and the name queued, if any. */
  function EvdevStep(
    axes: Axes, components: seq<Component>, width: int, height: int, needsRotate: bool,
    s: TouchState, e: InputEvent): (r: (TouchState, Option<string>))
    // only a report while touching queues anything, and a report changes no state
    ensures r.1.Some? ==> IsReport(e) && s.touching
    ensures IsReport(e) ==> r.0 == s
    // a tracking id sets `touching` to `id >= 0`, BTN_TOUCH to `pressed`
    ensures e.evType == EvAbs && e.code == AbsMtTrackingId ==> r.0.touching == (e.value >= 0)
    ensures e.evType == EvKey && e.code == BtnTouch ==> r.0.touching == (e.value == 1)
    // position events set the coordinate, mapped with the axis's own range
    ensures e.evType == EvAbs && e.code == AbsMtPositionX && axes.absMtX.Some? ==>
              r.0 == s.(x := MapAxis(e.value, Some(axes.absMtX.value.min), Some(axes.absMtX.value.max), width))
    ensures e.evType == EvAbs && e.code == AbsMtPositionY && axes.absMtY.Some? ==>
              r.0 == s.(y := MapAxis(e.value, Some(axes.absMtY.value.min), Some(axes.absMtY.value.max), height))
    ensures e.evType == EvAbs && e.code == AbsX && axes.absX.Some? ==>
              r.0 == s.(x := MapAxis(e.value, Some(axes.absX.value.min), Some(axes.absX.value.max), width))
    ensures e.evType == EvAbs && e.code == AbsY && axes.absY.Some? ==>
              r.0 == s.(y := MapAxis(e.value, Some(axes.absY.value.min), Some(axes.absY.value.max), height))
    // no other event moves the point
    ensures !(e.evType == EvAbs && ((e.code == AbsMtPositionX && axes.absMtX.Some?) || (e.code == AbsX && axes.absX.Some?)))
            ==> r.0.x == s.x
    ensures !(e.evType == EvAbs && ((e.code == AbsMtPositionY && axes.absMtY.Some?) || (e.code == AbsY && axes.absY.Some?)))
            ==> r.0.y == s.y
    // no other event changes `touching`
    ensures !(e.evType == EvAbs && e.code == AbsMtTrackingId) && !(e.evType == EvKey && e.code == BtnTouch)
            ==> r.0.touching == s.touching
    // a report while touching queues the first component holding its point
    ensures IsReport(e) && s.touching ==> var p := ReportPoint(axes, width, needsRotate, s);
              r.1 == HitTest(components, p.0, p.1)
  {
    if IsReport(e) then
      if !s.touching then (s, None)
      else
        var p := ReportPoint(axes, width, needsRotate, s);
        (s, HitTest(components, p.0, p.1))
    else (Track(axes, width, height, s, e), None)
  }

  /** The state and the queued names after the given events. */
  function EvdevRun(
    axes: Axes, components: seq<Component>, width: int, height: int, needsRotate: bool,
    events: seq<InputEvent>): (TouchState, seq<string>)
    decreases |events|
  {
    if events == [] then (InitialState, [])
    else
      var before := EvdevRun(axes, components, width, height, needsRotate, events[..|events| - 1]);
      var step := EvdevStep(axes, components, width, height, needsRotate, before.0, events[|events| - 1]);
      (step.0, before.1 + (if step.1.Some? then [step.1.value] else []))
  }

  /** `_touch_loop_evdev` over a finite prefix of the device's event stream. */
  method TouchLoopEvdev(
    components: seq<Component>, width: int, height: int, needsRotate: bool,
    axes: Axes, events: seq<InputEvent>) returns (queue: seq<string>)
    ensures queue == EvdevRun(axes, components, width, height, needsRotate, events).1
  {
    var x, y, touching := 0, 0, false;
    queue := [];
    for i := 0 to |events|
      invariant (TouchState(x, y, touching), queue) == EvdevRun(axes, components, width, height, needsRotate, events[..i])
    {
      var event := events[i];
      assert events[..i + 1] == events[..i] + [event];
      EvdevRunSnoc(axes, components, width, height, needsRotate, events[..i], event);
      ghost var next := EvdevStep(axes, components, width, height, needsRotate, TouchState(x, y, touching), event);
      assert queue + [] == queue;
      if event.evType == EvAbs {
        if event.code == AbsMtPositionX && axes.absMtX.Some? {
          x := MapAxis(event.value, Some(axes.absMtX.value.min), Some(axes.absMtX.value.max), width);
        } else if event.code == AbsMtPositionY && axes.absMtY.Some? {
          y := MapAxis(event.value, Some(axes.absMtY.value.min), Some(axes.absMtY.value.max), height);
        } else if event.code == AbsX && axes.absX.Some? {
          x := MapAxis(event.value, Some(axes.absX.value.min), Some(axes.absX.value.max), width);
        } else if event.code == AbsY && axes.absY.Some? {
          y := MapAxis(event.value, Some(axes.absY.value.min), Some(axes.absY.value.max), height);
        } else if event.code == AbsMtTrackingId {
          touching := event.value >= 0;
        }
      } else if event.evType == EvKey && event.code == BtnTouch {
        touching := event.value == 1;
      } else if event.evType == EvSyn && event.code == SynReport {
        if !touching {
          continue;
        }
        var touchX, touchY := x, y;
        if needsRotate && (axes.absX.Some? || axes.absMtX.Some?) && (axes.absY.Some? || axes.absMtY.Some?) {
          touchX, touchY := y, width - 1 - x;
        }
        var hit := HitTest(components, touchX, touchY);
        assert next.1 == hit;
        if hit.Some? {
          queue := queue + [hit.value];
        }
      }
      assert next.0 == TouchState(x, y, touching);
    }
    assert events[..|events|] == events;
  }

  /** Running one more event: the step from the state reached so far. */
  lemma EvdevRunSnoc(
    axes: Axes, components: seq<Component>, width: int, height: int, needsRotate: bool,
    events: seq<InputEvent>, e: InputEvent)
    ensures var before := EvdevRun(axes, components, width, height, needsRotate, events);
      var step := EvdevStep(axes, components, width, height, needsRotate, before.0, e);
      EvdevRun(axes, components, width, height, needsRotate, events + [e])
        == (step.0, before.1 + (if step.1.Some? then [step.1.value] else []))
  {
    assert (events + [e])[..|events|] == events;
  }

  /** Every `SYN_REPORT` while touching queues the first component whose box
      holds the report's point, if any box does; a report while not touching,
      and every other event, queues nothing. A report changes no state. */
  lemma EvdevRunAppend(
    axes: Axes, components: seq<Component>, width: int, height: int, needsRotate: bool,
    events: seq<InputEvent>, e: InputEvent)
    ensures var before := EvdevRun(axes, components, width, height, needsRotate, events);
      var after := EvdevRun(axes, components, width, height, needsRotate, events + [e]);
      var p := ReportPoint(axes, width, needsRotate, before.0);
      var hit := HitTest(components, p.0, p.1);
      && (IsReport(e) ==> after.0 == before.0)
      && (IsReport(e) && before.0.touching ==>
            after.1 == before.1 + (if hit.Some? then [hit.value] else []))
      && (!(IsReport(e) && before.0.touching) ==> after.1 == before.1)
  {
    EvdevRunSnoc(axes, components, width, height, needsRotate, events, e);
    var before := EvdevRun(axes, components, width, height, needsRotate, events);
    assert before.1 + [] == before.1;
  }

  /** The number of reports among the events. */
  function Reports(events: seq<InputEvent>): nat
  {
    if events == [] then 0
    else Reports(events[..|events| - 1]) + (if IsReport(events[|events| - 1]) then 1 else 0)
  }

  /** Each report queues at most one name, and nothing else queues any. */
  lemma {:induction false} AtMostOneNamePerReport(
    axes: Axes, components: seq<Component>, width: int, height: int, needsRotate: bool,
    events: seq<InputEvent>)
    ensures |EvdevRun(axes, components, width, height, needsRotate, events).1| <= Reports(events)
    decreases |events|
  {
    if events != [] {
      AtMostOneNamePerReport(axes, components, width, height, needsRotate, events[..|events| - 1]);
    }
  }

  /** Without a touch-down event the flag stays clear and nothing is queued,
      however the finger position moves. */
  lemma {:induction false} NoTouchNoNames(
    axes: Axes, components: seq<Component>, width: int, height: int, needsRotate: bool,
    events: seq<InputEvent>)
    requires forall i :: 0 <= i < |events| ==> !IsTouchDown(events[i])
    ensures var r := EvdevRun(axes, components, width, height, needsRotate, events);
      !r.0.touching && r.1 == []
    decreases |events|
  {
    if events != [] {
      NoTouchNoNames(axes, components, width, height, needsRotate, events[..|events| - 1]);
    }
  }

  /** Every name in `q` is the name of one of the components. */
  ghost predicate NamesOf(q: seq<string>, components: seq<Component>)
  {
    forall n :: n in q ==> exists c :: c in components && c.name == n
  }

  /** Every queued name is the name of a component. */
  lemma {:induction false} QueuedNamesAreComponents(
    axes: Axes, components: seq<Component>, width: int, height: int, needsRotate: bool,
    events: seq<InputEvent>)
    ensures NamesOf(EvdevRun(axes, components, width, height, needsRotate, events).1, components)
    decreases |events|
  {
    if events != [] {
      QueuedNamesAreComponents(axes, components, width, height, needsRotate, events[..|events| - 1]);
      var before := EvdevRun(axes, components, width, height, needsRotate, events[..|events| - 1]);
      var step := EvdevStep(axes, components, width, height, needsRotate, before.0, events[|events| - 1]);
      assert EvdevRun(axes, components, width, height, needsRotate, events)
          == (step.0, before.1 + (if step.1.Some? then [step.1.value] else []));
      if step.1.Some? {
        var i :| 0 <= i < |components| && step.1.value == components[i].name;
        assert components[i] in components;
      } else {
        assert before.1 + [] == before.1;
      }
    }
  }

  /** A finger held down through two reports queues its component twice:
      names are queued on every report while touching, not once per touch. */
  lemma HeldTouchQueuesEveryReport()
    ensures var axes := Axes(None, None, Some(AbsInfo(0, 99)), Some(AbsInfo(0, 99)));
      var art := [Component("Art", Box(0, 0, 100, 100))];
      var events := [InputEvent(EvKey, BtnTouch, 1), InputEvent(EvSyn, SynReport, 0), InputEvent(EvSyn, SynReport, 0)];
      EvdevRun(axes, art, 100, 100, false, events).1 == ["Art", "Art"]
  {
    var axes := Axes(None, None, Some(AbsInfo(0, 99)), Some(AbsInfo(0, 99)));
    var art := [Component("Art", Box(0, 0, 100, 100))];
    var events := [InputEvent(EvKey, BtnTouch, 1), InputEvent(EvSyn, SynReport, 0), InputEvent(EvSyn, SynReport, 0)];
    var down, report := InputEvent(EvKey, BtnTouch, 1), InputEvent(EvSyn, SynReport, 0);
    var held := TouchState(0, 0, true);
    EvdevRunSnoc(axes, art, 100, 100, false, [], down);
    assert EvdevStep(axes, art, 100, 100, false, InitialState, down) == (held, None);
    assert EvdevRun(axes, art, 100, 100, false, [down]) == (held, []);
    EvdevRunSnoc(axes, art, 100, 100, false, [down], report);
    assert HitTest(art, 0, 0) == Some("Art");
    assert EvdevStep(axes, art, 100, 100, false, held, report) == (held, Some("Art"));
    assert [down] + [report] == [down, report];
    EvdevRunSnoc(axes, art, 100, 100, false, [down, report], report);
    assert [down, report] + [report] == events;
  }

  /** The configured calibration bounds of the GT1151 backend. */
  datatype Bounds = Bounds(xMin: Option<int>, xMax: Option<int>, yMin: Option<int>, yMax: Option<int>)

  /** The logical position of a GT1151 point: both axes calibrated, then
      rotated whenever the canvas is. */
  function Gt1151Position(p: Gt1151.TouchPoint, bounds: Bounds, width: int, height: int, needsRotate: bool): (int, int)
  {
    var tx := MapAxis(p.x, bounds.xMin, bounds.xMax, width);
    var ty := MapAxis(p.y, bounds.yMin, bounds.yMax, height);
    if needsRotate then Rotate(tx, ty, width) else (tx, ty)
  }

  /** With both axes calibrated, a GT1151 touch lands on the landscape
      canvas: inside `width x height` unrotated, `height x width` rotated. */
  lemma Gt1151PositionOnCanvas(p: Gt1151.TouchPoint, bounds: Bounds, width: int, height: int, needsRotate: bool)
    requires Calibrated(bounds.xMin, bounds.xMax) && Calibrated(bounds.yMin, bounds.yMax)
    requires width >= 1 && height >= 1
    ensures var q := Gt1151Position(p, bounds, width, height, needsRotate);
      var (w, h) := if needsRotate then (height, width) else (width, height);
      0 <= q.0 < w && 0 <= q.1 < h
  {
    MapAxisRange(p.x, bounds.xMin.value, bounds.xMax.value, width);
    MapAxisRange(p.y, bounds.yMin.value, bounds.yMax.value, height);
  }

  /** End to end: `main` starts the touch loop with the size of the image
      as sent to the panel (portrait again when the canvas was rotated), and
      with that size a calibrated GT1151 touch lands on the landscape canvas
      the components were laid out on. */
  lemma TouchLandsOnCanvas(p: Gt1151.TouchPoint, bounds: Bounds, panelWidth: int, panelHeight: int)
    requires Calibrated(bounds.xMin, bounds.xMax) && Calibrated(bounds.yMin, bounds.yMax)
    requires panelWidth >= 1 && panelHeight >= 1
    ensures var c := Landscape(panelWidth, panelHeight);
      var (w, h) := if c.rotated then (c.height, c.width) else (c.width, c.height);
      var q := Gt1151Position(p, bounds, w, h, c.rotated);
      0 <= q.0 < c.width && 0 <= q.1 < c.height
  {
    var c := Landscape(panelWidth, panelHeight);
    var (w, h) := if c.rotated then (c.height, c.width) else (c.width, c.height);
    Gt1151PositionOnCanvas(p, bounds, w, h, c.rotated);
  }

  /** One poll of `_touch_loop_gt1151`: the name queued for what
      `read_points` returned, if any. Only the first point is used. */
  function Gt1151Step(
    points: Option<seq<Gt1151.TouchPoint>>, bounds: Bounds,
    components: seq<Component>, width: int, height: int, needsRotate: bool): (r: Option<string>)
    ensures points.None? || points.value == [] ==> r.None?
    ensures r.Some? ==> exists c :: c in components && c.name == r.value
    ensures points.Some? && points.value != [] ==>
              var q := Gt1151Position(points.value[0], bounds, width, height, needsRotate);
              r.None? <==> forall i :: 0 <= i < |components| ==> !Contains(components[i].box, q.0, q.1)
    // the name is that of the first component whose box holds the first point
    ensures points.Some? && points.value != [] ==>
              var q := Gt1151Position(points.value[0], bounds, width, height, needsRotate);
              r == HitTest(components, q.0, q.1)
  {
    if points.None? || points.value == [] then None
    else
      var q := Gt1151Position(points.value[0], bounds, width, height, needsRotate);
      HitTest(components, q.0, q.1)
  }

  /** The names queued over a run of polls. */
  function Gt1151Run(
    polls: seq<Option<seq<Gt1151.TouchPoint>>>, bounds: Bounds,
    components: seq<Component>, width: int, height: int, needsRotate: bool): seq<string>
    decreases |polls|
  {
    if polls == [] then []
    else
      var step := Gt1151Step(polls[|polls| - 1], bounds, components, width, height, needsRotate);
      Gt1151Run(polls[..|polls| - 1], bounds, components, width, height, needsRotate)
      + (if step.Some? then [step.value] else [])
  }

  /** `_touch_loop_gt1151` over a finite run of polls; `polls` holds what
      successive `read_points` calls returned. */
  method TouchLoopGt1151(
    components: seq<Component>, width: int, height: int, needsRotate: bool,
    bounds: Bounds, polls: seq<Option<seq<Gt1151.TouchPoint>>>) returns (queue: seq<string>)
    ensures queue == Gt1151Run(polls, bounds, components, width, height, needsRotate)
  {
    queue := [];
    for i := 0 to |polls|
      invariant queue == Gt1151Run(polls[..i], bounds, components, width, height, needsRotate)
    {
      assert polls[..i + 1][..i] == polls[..i];
      var points := polls[i];
      if points.None? || points.value == [] {
        continue;
      }
      var touchX := MapAxis(points.value[0].x, bounds.xMin, bounds.xMax, width);
      var touchY := MapAxis(points.value[0].y, bounds.yMin, bounds.yMax, height);
      if needsRotate {
        touchX, touchY := touchY, width - 1 - touchX;
      }
      var hit := HitTest(components, touchX, touchY);
      if hit.Some? {
        queue := queue + [hit.value];
      }
    }
    assert polls[..|polls|] == polls;
  }

  /** Each poll appends to the queue exactly the name of the first component
      whose box holds its first point, if any box does; a poll with no
      points appends nothing. */
  lemma Gt1151RunAppend(
    polls: seq<Option<seq<Gt1151.TouchPoint>>>, poll: Option<seq<Gt1151.TouchPoint>>, bounds: Bounds,
    components: seq<Component>, width: int, height: int, needsRotate: bool)
    ensures var before := Gt1151Run(polls, bounds, components, width, height, needsRotate);
      var after := Gt1151Run(polls + [poll], bounds, components, width, height, needsRotate);
      && (poll.None? || poll.value == [] ==> after == before)
      && (poll.Some? && poll.value != [] ==>
            var q := Gt1151Position(poll.value[0], bounds, width, height, needsRotate);
            var hit := HitTest(components, q.0, q.1);
            after == before + (if hit.Some? then [hit.value] else []))
  {
    assert (polls + [poll])[..|polls|] == polls;
    var before := Gt1151Run(polls, bounds, components, width, height, needsRotate);
    assert before + [] == before;
  }

  /** Only the first point of a poll matters: the points after it never
      change what is queued. */
  lemma Gt1151FirstPointOnly(
    first: Gt1151.TouchPoint, rest1: seq<Gt1151.TouchPoint>, rest2: seq<Gt1151.TouchPoint>, bounds: Bounds,
    components: seq<Component>, width: int, height: int, needsRotate: bool)
    ensures Gt1151Step(Some([first] + rest1), bounds, components, width, height, needsRotate)
         == Gt1151Step(Some([first] + rest2), bounds, components, width, height, needsRotate)
  {
    assert ([first] + rest1)[0] == first == ([first] + rest2)[0];
  }

  /** Each poll queues at most one name. */
  lemma {:induction false} AtMostOneNamePerPoll(
    polls: seq<Option<seq<Gt1151.TouchPoint>>>, bounds: Bounds,
    components: seq<Component>, width: int, height: int, needsRotate: bool)
    ensures |Gt1151Run(polls, bounds, components, width, height, needsRotate)| <= |polls|
    decreases |polls|
  {
    if polls != [] {
      AtMostOneNamePerPoll(polls[..|polls| - 1], bounds, components, width, height, needsRotate);
    }
  }

  /** The point (10, 20), with both axes calibrated to 0..99, on an
      unrotated 300 x 150 canvas, lands at (30, 30); with an `Art` box at
      (0, 0)-(100, 100) first in the list, the poll queues `Art`. */
  lemma Gt1151PollExample()
    ensures var bounds := Bounds(Some(0), Some(99), Some(0), Some(99));
      var cs := [Component("Art", Box(0, 0, 100, 100)), Component("Title", Box(110, 0, 300, 20))];
      && Gt1151Position(Gt1151.TouchPoint(10, 20, 0, 0), bounds, 300, 150, false) == (30, 30)
      && Gt1151Step(Some([Gt1151.TouchPoint(10, 20, 0, 0)]), bounds, cs, 300, 150, false) == Some("Art")
  {
    var cs := [Component("Art", Box(0, 0, 100, 100)), Component("Title", Box(110, 0, 300, 20))];
    MapAxisExamples();
    assert HitTest(cs, 30, 30) == Some("Art");
  }

  /** From the register file to the queue: status 0x81 with point record
      `[0, 10, 0, 20, 0, 0, 0, 0]` read by the driver, calibrated and
      hit-tested as above, queues `Art`. */
  lemma Gt1151EndToEnd()
    ensures var mem := map[0x814E := 0x81 as Bytes.byte, 0x8150 := 10, 0x8152 := 20];
      var bounds := Bounds(Some(0), Some(99), Some(0), Some(99));
      var cs := [Component("Art", Box(0, 0, 100, 100)), Component("Title", Box(110, 0, 300, 20))];
      Gt1151Step(Gt1151.PointsFrom(mem), bounds, cs, 300, 150, false) == Some("Art")
  {
    Gt1151.OnePointExample();
    Gt1151PollExample();
  }
}

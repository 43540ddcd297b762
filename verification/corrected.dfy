/**
 The controller with the animation overrun repaired. The tick of the viewer
 advances an orientation's index even when that index already sits on the
 last slice, so a `start` after an animation has finished leaves the index
 outside the volume, and the next redraw of any view raises. Here the tick
 never stores an index beyond the last slice; everything else is the same
 controller. With that one change every view stays drawable under every
 sequence of events, and no redraw can fault.
 */
module Corrected {
  import opened Viewer

  /** `animate_slice` with the stored index clamped to the last slice. */
  function ClampedTick(v: Viewer, o: Orientation): (r: Step)
    ensures SameCatalog(v, r.viewer)
    ensures !v.animating.Get(o) ==> r == Step(v, Quiet)
    ensures forall p :: p != o ==> r.viewer.slices.Get(p) == v.slices.Get(p)
    ensures forall p :: p != o ==> r.viewer.animating.Get(p) == v.animating.Get(p)
    ensures v.animating.Get(o) && InRange(v, o) ==> InRange(r.viewer, o)
    ensures r.effect == Faulted <==> v.animating.Get(o) && v.slices.Get(o) + 1 <= MaxAnimated(v, o) && !OthersInRange(v, o)
  {
    if !v.animating.Get(o) then Step(v, Quiet)
    else
      var i := v.slices.Get(o) + 1;
      var e := v.volume.Extent(o);
      var w := v.(slices := v.slices.Set(o, if i < e then i else e - 1));
      OthersInRangeFrame(v, w, o);
      if i > MaxAnimated(v, o) then
        Step(w.(animating := w.animating.Set(o, false)), Stopped)
      else if !OthersInRange(w, o) then
        Step(w, Faulted)
      else
        RenderableFromParts(w, o);
        Step(Redraw(w), Scheduled)
  }

  /** `start` over the clamped tick. */
  function ClampedStart(v: Viewer, o: Orientation): (r: Step)
    ensures SameCatalog(v, r.viewer)
    ensures v.animating.Get(o) ==> r == Step(v, Quiet)
    ensures Renderable(v) ==> Renderable(r.viewer) && r.effect != Faulted
  {
    if !v.animating.Get(o) then
      var u := v.(animating := v.animating.Set(o, true));
      SameViewsRenderable(v, u);
      ClampedKeepsRenderable(u, o);
      ClampedTick(u, o)
    else Step(v, Quiet)
  }

  /** `replay` over the clamped tick. */
  function ClampedReplay(v: Viewer, o: Orientation): (r: Step)
    ensures SameCatalog(v, r.viewer)
    ensures r.viewer.slices.Get(o) <= 1
    ensures Renderable(v) ==> Renderable(r.viewer) && r.effect != Faulted
  {
    var u := v.(slices := v.slices.Set(o, 0), animating := v.animating.Set(o, true));
    RewindKeepsRenderable(v, o);
    ClampedKeepsRenderable(u, o);
    ClampedTick(u, o)
  }

  /** Rewinding one orientation to slice 0 keeps every view drawable. */
  lemma RewindKeepsRenderable(v: Viewer, o: Orientation)
    ensures Renderable(v) ==>
      Renderable(v.(slices := v.slices.Set(o, 0), animating := v.animating.Set(o, true)))
  {
    var u := v.(slices := v.slices.Set(o, 0), animating := v.animating.Set(o, true));
    if Renderable(v) {
      assert OthersInRange(v, o);
      OthersInRangeFrame(v, u, o);
      RenderableFromParts(u, o);
    }
  }

  /** From drawable views, a clamped tick keeps every view drawable and never faults. */
  lemma ClampedKeepsRenderable(v: Viewer, o: Orientation)
    ensures Renderable(v) ==> Renderable(ClampedTick(v, o).viewer)
    ensures Renderable(v) ==> ClampedTick(v, o).effect != Faulted
  {
    var r := ClampedTick(v, o).viewer;
    if Renderable(v) {
      assert OthersInRange(v, o);
      OthersInRangeFrame(v, r, o);
      RenderableFromParts(r, o);
    }
  }

  /** Wherever the original tick keeps its orientation inside the volume,
      the clamped tick does exactly the same thing. */
  lemma ClampedAgreesInRange(v: Viewer, o: Orientation)
    requires InRange(Tick(v, o).viewer, o)
    ensures ClampedTick(v, o) == Tick(v, o)
  {
  }

  /** The event dispatch with the clamped animation operations. */
  function ClampedApply(v: Viewer, c: Command): (r: Step)
    requires Valid(v)
    ensures Valid(r.viewer) && r.viewer.files == v.files
    ensures Renderable(v) ==> Renderable(r.viewer) && r.effect != Faulted
  {
    match c
    case NextSubject => Step(Next(v), Quiet)
    case PrevSubject => Step(Prev(v), Quiet)
    case GoToSubject(entry) => Step(GoTo(v, entry), Quiet)
    case StartAnimation(o) => ClampedStart(v, o)
    case StopAnimation(o) =>
      var w := Stop(v, o);
      SameViewsRenderable(v, w);
      Step(w, Quiet)
    case ReplayAnimation(o) => ClampedReplay(v, o)
    case TimerFires(o) =>
      ClampedKeepsRenderable(v, o);
      ClampedTick(v, o)
  }

  /** Dispatch a sequence of events in order. From drawable views, any
      sequence of events, including timer firings in any order, leaves every
      view drawable and never faults on the last event. */
  function ClampedApplyAll(v: Viewer, cs: seq<Command>): (r: Step)
    requires Valid(v)
    ensures Valid(r.viewer)
    ensures Renderable(v) ==> Renderable(r.viewer) && r.effect != Faulted
    decreases |cs|
  {
    if |cs| == 0 then Step(v, Quiet)
    else
      var s := ClampedApply(v, cs[0]);
      if |cs| == 1 then s else ClampedApplyAll(s.viewer, cs[1..])
  }

  /** From drawable views no event faults anywhere along a sequence: after
      every prefix of the events all views are still drawable. */
  lemma ClampedNeverFaults(v: Viewer, cs: seq<Command>)
    requires Valid(v) && Renderable(v)
    ensures forall k :: 0 <= k <= |cs| ==> Renderable(ClampedApplyAll(v, cs[..k]).viewer)
    ensures forall k :: 0 <= k <= |cs| ==> ClampedApplyAll(v, cs[..k]).effect != Faulted
  {
  }

  /** In particular from the freshly opened viewer. */
  lemma ClampedViewerNeverFaults(files: seq<Scan>, cs: seq<Command>)
    requires |files| > 0
    ensures Renderable(ClampedApplyAll(Init(files), cs).viewer)
    ensures ClampedApplyAll(Init(files), cs).effect != Faulted
  {
    ClampedNeverFaults(Init(files), cs);
  }

  /** The events that make the original controller fault are harmless here:
      on a volume of shape (2, 3, 3) with every index at 0 and nothing
      animating, `start` sagittal twice leaves the sagittal index on the last
      slice, and `start` coronal then redraws and schedules its next tick. */
  lemma ClampedRestartRedraws(v: Viewer)
    requires v.volume == Shape(2, 3, 3) && v.slices == Zeros && v.animating == NoneAnimating
    ensures var s1 := ClampedStart(v, Sagittal);
      var s2 := ClampedStart(s1.viewer, Sagittal);
      && s2.viewer.slices.Get(Sagittal) == 1
      && ClampedStart(s2.viewer, Coronal).effect == Scheduled
  {
    var s1 := ClampedStart(v, Sagittal);
    assert s1.effect == Stopped;
    assert s1.viewer.volume == v.volume && s1.viewer.slices == PerOrientation(1, 0, 0);
    assert s1.viewer.animating == NoneAnimating;
    var s2 := ClampedStart(s1.viewer, Sagittal);
    assert s2.viewer.volume == v.volume && s2.viewer.slices == PerOrientation(1, 0, 0);
    assert s2.viewer.animating == NoneAnimating;
    var u := s2.viewer.(animating := s2.viewer.animating.Set(Coronal, true));
    assert OthersInRange(u, Coronal) by {
      assert InRange(u, Sagittal) && InRange(u, Axial);
    }
  }
}

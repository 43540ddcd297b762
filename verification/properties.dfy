/**
 Properties that relate several transitions of the viewer: navigation round
 trips, jumping to a listed subject, what happens to a running animation when
 the subject changes, cooperative cancellation, and the complete run of an
 animation together with the edge right after it.
 */
module ViewerProperties {
  import opened Viewer
  import Paths

  /** `next` then `previous` from any position but the last lands on the same
      subject again, with every slice back at 0. */
  lemma NextThenPrev(v: Viewer)
    requires Valid(v) && v.index < |v.files| - 1
    ensures Prev(Next(v)) == v.(slices := Zeros, caption := Showing(v.subject))
  {
    var w := Next(v);
    assert w.index == v.index + 1 > 0;
  }

  /** `previous` then `next` from any position but the first lands on the same
      subject again, with every slice back at 0. */
  lemma PrevThenNext(v: Viewer)
    requires Valid(v) && v.index > 0
    ensures Next(Prev(v)) == v.(slices := Zeros, caption := Showing(v.subject))
  {
    var w := Prev(v);
    assert w.index == v.index - 1 < |v.files| - 1;
  }

  /** Typing the id of the `k`-th file, with any whitespace around it, jumps
      to a file with that id at or before position `k`. */
  lemma GoToFindsListedSubject(v: Viewer, k: int, before: string, after: string)
    requires Valid(v) && 0 <= k < |v.files|
    requires IdAt(v.files, k) != []
    requires !Paths.IsSpace(IdAt(v.files, k)[0]) && !Paths.IsSpace(IdAt(v.files, k)[|IdAt(v.files, k)| - 1])
    requires forall i :: 0 <= i < |before| ==> Paths.IsSpace(before[i])
    requires forall i :: 0 <= i < |after| ==> Paths.IsSpace(after[i])
    ensures GoTo(v, before + IdAt(v.files, k) + after).index <= k
    ensures GoTo(v, before + IdAt(v.files, k) + after).subject == IdAt(v.files, k)
    ensures GoTo(v, before + IdAt(v.files, k) + after).slices == Zeros
  {
    var id := IdAt(v.files, k);
    Paths.StripRemovesPadding(before, id, after);
    assert Lists(v.files, id);
  }

  /** Changing subject does not lower a running animation's flag: a stale
      tick that fires afterwards advances the new subject's slice from 0. */
  lemma NavigationKeepsAnimationRunning(v: Viewer, o: Orientation)
    requires Valid(v) && v.index < |v.files| - 1 && v.animating.Get(o)
    ensures Next(v).animating.Get(o)
    ensures Tick(Next(v), o).viewer.slices.Get(o) == 1
    ensures Tick(Next(v), o).effect != Quiet
  {
  }

  /** Cooperative cancellation: once `stop` has run, the tick already
      scheduled for that orientation changes nothing and schedules nothing. */
  lemma StopThenTickIsQuiet(v: Viewer, o: Orientation)
    ensures Tick(Stop(v, o), o) == Step(Stop(v, o), Quiet)
  {
  }

  /** `replay` does not depend on the orientation's prior index or flag. */
  lemma ReplayForgetsPrior(v: Viewer, w: Viewer, o: Orientation)
    requires SameCatalog(v, w) && w.caption == v.caption
    requires forall p :: p != o ==> w.slices.Get(p) == v.slices.Get(p)
    requires forall p :: p != o ==> w.animating.Get(p) == v.animating.Get(p)
    ensures Replay(v, o) == Replay(w, o)
  {
    assert v.slices.Set(o, 0) == w.slices.Set(o, 0) by {
      match o
      case Sagittal => assert v.slices.Get(Coronal) == w.slices.Get(Coronal) && v.slices.Get(Axial) == w.slices.Get(Axial);
      case Coronal => assert v.slices.Get(Sagittal) == w.slices.Get(Sagittal) && v.slices.Get(Axial) == w.slices.Get(Axial);
      case Axial => assert v.slices.Get(Sagittal) == w.slices.Get(Sagittal) && v.slices.Get(Coronal) == w.slices.Get(Coronal);
    }
    assert v.animating.Set(o, true) == w.animating.Set(o, true) by {
      match o
      case Sagittal => assert v.animating.Get(Coronal) == w.animating.Get(Coronal) && v.animating.Get(Axial) == w.animating.Get(Axial);
      case Coronal => assert v.animating.Get(Sagittal) == w.animating.Get(Sagittal) && v.animating.Get(Axial) == w.animating.Get(Axial);
      case Axial => assert v.animating.Get(Sagittal) == w.animating.Get(Sagittal) && v.animating.Get(Coronal) == w.animating.Get(Coronal);
    }
  }

  /** Every tick that schedules another lowers the loop's ranking measure. */
  lemma TickLowersRank(v: Viewer, o: Orientation)
    requires Tick(v, o).effect == Scheduled
    ensures Rank(Tick(v, o).viewer, o) < Rank(v, o)
  {
  }

  /** An animation started at slice 0 on a drawable volume always ends: the
      flag drops, the index rests at `max(1, extent - 1)`, and exactly the
      slices `1 .. extent - 2` were redrawn, `max(0, extent - 2)` of them. */
  lemma AnimationFromZero(v: Viewer, o: Orientation)
    requires Renderable(v) && v.slices.Get(o) == 0 && v.animating.Get(o)
    ensures !Run(v, o).viewer.animating.Get(o)
    ensures Run(v, o).viewer.slices.Get(o) == Max(1, v.volume.Extent(o) - 1)
    ensures Run(v, o).frames == Range(1, v.volume.Extent(o) - 1)
    ensures |Run(v, o).frames| == Max(0, v.volume.Extent(o) - 2)
    ensures forall k :: 0 <= k < |Run(v, o).frames| ==> Run(v, o).frames[k] <= MaxAnimated(v, o)
  {
    assert OthersInRange(v, o);
  }

  /** After an animation has auto-stopped, pressing `start` again moves the
      index past the last slice without a redraw; from any index the
      animation itself redraws, it lands on the extent exactly. */
  lemma RestartAfterFinishOverruns(v: Viewer, o: Orientation)
    requires Renderable(v) && v.animating.Get(o)
    ensures var done := Run(v, o).viewer;
      && Start(done, o).effect == Stopped
      && !InRange(Start(done, o).viewer, o)
      && (v.slices.Get(o) <= MaxAnimated(v, o) ==>
            Start(done, o).viewer.slices.Get(o) == v.volume.Extent(o))
  {
    assert OthersInRange(v, o);
  }

  /** On an axis of a single slice there is nothing to animate, and no earlier
      animation is needed for the overrun: the very first `start` stores
      index 1, which is outside the volume, and drops the flag at once. */
  lemma StartOnSingleSliceOverruns(v: Viewer, o: Orientation)
    requires v.volume.Extent(o) == 1 && v.slices.Get(o) == 0 && !v.animating.Get(o)
    ensures Start(v, o).effect == Stopped
    ensures Start(v, o).viewer.slices.Get(o) == 1 && !InRange(Start(v, o).viewer, o)
    ensures !Start(v, o).viewer.animating.Get(o)
  {
  }

  /** The overrun is not harmless. On a first scan of shape (2, 3, 3),
      pressing `start` sagittal twice leaves the sagittal index at 2 on an
      extent of 2, so `start` coronal reaches a redraw that indexes outside the
      volume and raises; the coronal flag is left up with no tick scheduled,
      so a further `start` coronal does nothing. */
  lemma RestartThenRedrawFaults(files: seq<Scan>)
    requires |files| > 0 && files[0].shape == Shape(2, 3, 3)
    ensures var v := Init(files);
      var s1 := Start(v, Sagittal);
      var s2 := Start(s1.viewer, Sagittal);
      var s3 := Start(s2.viewer, Coronal);
      && s1.effect == Stopped && s1.viewer.slices.Get(Sagittal) == 1
      && s2.effect == Stopped && s2.viewer.slices.Get(Sagittal) == 2
      && s3.effect == Faulted && s3.viewer.animating.Get(Coronal)
      && Start(s3.viewer, Coronal) == Step(s3.viewer, Quiet)
  {
    var v := Init(files);
    var s1 := Start(v, Sagittal);
    assert s1.effect == Stopped;
    assert s1.viewer.volume == v.volume && s1.viewer.slices == PerOrientation(1, 0, 0);
    assert s1.viewer.animating == NoneAnimating;
    var s2 := Start(s1.viewer, Sagittal);
    assert s2.effect == Stopped;
    assert s2.viewer.volume == v.volume && s2.viewer.slices == PerOrientation(2, 0, 0);
    assert s2.viewer.animating == NoneAnimating;
    var s3 := Start(s2.viewer, Coronal);
    // the sagittal index 2 is outside an extent of 2
    assert !OthersInRange(s2.viewer.(animating := s2.viewer.animating.Set(Coronal, true)), Coronal) by {
      assert !InRange(s2.viewer.(animating := s2.viewer.animating.Set(Coronal, true)), Sagittal);
    }
    assert s3.effect == Faulted;
  }

}

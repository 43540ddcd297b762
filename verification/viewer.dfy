/**
 The state machine of the NIfTI brain viewer: a cursor over a fixed list of
 scans, the id and extents of the loaded subject, and for each of the three
 viewing planes a slice index and an animation flag. Every user action and
 every firing of an animation timer is a pure transition on this record.

 A loaded volume is abstracted to its three extents (`data.shape`); drawing
 is abstracted to `Redraw`, which only changes the subject label and which
 fails (as numpy indexing does) when some plane's index is outside its volume.
 */
module Viewer {
  import Paths

  /** The outcome of a search that may find nothing. */
  datatype Option<+T> = None | Some(value: T)

  datatype Orientation = Sagittal | Coronal | Axial

  /** The volume axis each orientation slices along: each of the three axes
      is cut by exactly one orientation. */
  function Axis(o: Orientation): (a: nat)
    ensures a == 0 <==> o == Sagittal
    ensures a == 1 <==> o == Coronal
    ensures a == 2 <==> o == Axial
  {
    match o
    case Sagittal => 0
    case Coronal => 1
    case Axial => 2
  }

  /** An extent of a NIfTI volume: every axis holds at least one voxel. */
  type Dim = n: int | 1 <= n witness 1

  /** The shape `data.shape` of a loaded volume. */
  datatype Shape = Shape(d0: Dim, d1: Dim, d2: Dim) {
    function Along(axis: nat): Dim
      requires axis < 3
    {
      if axis == 0 then d0 else if axis == 1 then d1 else d2
    }

    /** The number of slices along the axis an orientation cuts. */
    function Extent(o: Orientation): Dim {
      Along(Axis(o))
    }
  }

  /** One entry of the file list: its path, and the shape loading it yields. */
  datatype Scan = Scan(path: string, shape: Shape)

  /** A value for each orientation (the source keeps these in dictionaries). */
  datatype PerOrientation<T> = PerOrientation(sagittal: T, coronal: T, axial: T) {
    function Get(o: Orientation): T {
      match o
      case Sagittal => sagittal
      case Coronal => coronal
      case Axial => axial
    }

    function Set(o: Orientation, x: T): (r: PerOrientation<T>)
      ensures r.Get(o) == x
      ensures forall p :: p != o ==> r.Get(p) == Get(p)
    {
      match o
      case Sagittal => this.(sagittal := x)
      case Coronal => this.(coronal := x)
      case Axial => this.(axial := x)
    }
  }

  const Zeros: PerOrientation<nat> := PerOrientation(0, 0, 0)
  const NoneAnimating: PerOrientation<bool> := PerOrientation(false, false, false)

  /** The subject label: the loaded subject, or the last jump target that matched nothing. */
  datatype Label = Showing(subject: string) | NotFound(target: string)

  datatype Viewer = Viewer(
    files: seq<Scan>,
    index: int,
    subject: string,
    volume: Shape,
    slices: PerOrientation<nat>,
    animating: PerOrientation<bool>,
    caption: Label)

  /** What a timer-driven step did besides changing the state. */
  datatype Effect =
    | Quiet      // nothing drawn, nothing scheduled
    | Stopped    // the index ran past the last animated slice; the flag was cleared
    | Scheduled  // all views redrawn and one further tick scheduled
    | Faulted    // the redraw indexed outside the volume and raised

  datatype Step = Step(viewer: Viewer, effect: Effect)

  /** The result of driving an orientation's ticks until they stop scheduling. */
  datatype Animation = Animation(viewer: Viewer, frames: seq<int>, last: Effect)

  /** The object invariant: the cursor is inside the list and the loaded
      subject is the one under the cursor. */
  predicate Valid(v: Viewer) {
    && 0 <= v.index < |v.files|
    && v.volume == v.files[v.index].shape
    && v.subject == Paths.SubjectId(v.files[v.index].path)
  }

  /** The subject id of the `k`-th file. */
  function IdAt(files: seq<Scan>, k: int): string
    requires 0 <= k < |files|
  {
    Paths.SubjectId(files[k].path)
  }

  /** Indexing the volume with orientation `o`'s slice index succeeds. */
  predicate InRange(v: Viewer, o: Orientation) {
    v.slices.Get(o) < v.volume.Extent(o)
  }

  /** Every view can be drawn. */
  predicate Renderable(v: Viewer) {
    forall o :: InRange(v, o)
  }

  /** Every view but `o`'s can be drawn. */
  predicate OthersInRange(v: Viewer, o: Orientation) {
    forall p :: p != o ==> InRange(v, p)
  }

  /** The highest index an animation redraws: the largest index whose next
      slice still lies inside the volume, one below the last slice. It is -1
      on an axis of a single slice, where no index is ever redrawn. */
  function MaxAnimated(v: Viewer, o: Orientation): (m: int)
    ensures m + 1 < v.volume.Extent(o) <= m + 2
    ensures m >= -1
  {
    v.volume.Extent(o) - 2
  }

  /** The cursor and the loaded subject are the same in both states. */
  predicate SameCatalog(v: Viewer, w: Viewer) {
    && w.files == v.files
    && w.index == v.index
    && w.subject == v.subject
    && w.volume == v.volume
  }

  /** Changing only `o`'s index cannot change whether the other views can be drawn. */
  lemma OthersInRangeFrame(v: Viewer, w: Viewer, o: Orientation)
    requires w.volume == v.volume
    requires forall p :: p != o ==> w.slices.Get(p) == v.slices.Get(p)
    ensures OthersInRange(w, o) <==> OthersInRange(v, o)
  {
    assert forall p :: p != o ==> (InRange(w, p) <==> InRange(v, p));
  }

  /** Whether the views can be drawn depends only on the indices and the volume. */
  lemma SameViewsRenderable(v: Viewer, w: Viewer)
    requires w.slices == v.slices && w.volume == v.volume
    ensures Renderable(w) <==> Renderable(v)
  {
    assert forall o :: InRange(w, o) <==> InRange(v, o);
  }

  /** A view and all the others drawable: every view drawable. */
  lemma RenderableFromParts(v: Viewer, o: Orientation)
    requires InRange(v, o) && OthersInRange(v, o)
    ensures Renderable(v)
  {
    forall p ensures InRange(v, p) {
      if p != o { assert InRange(v, p); }
    }
  }

  /** `load_subject`: the new subject's id and extents, all slices back to 0.
      The animation flags and the label are left as they were. */
  function LoadSubject(v: Viewer, scan: Scan): (r: Viewer)
    ensures r.subject == Paths.SubjectId(scan.path) && r.volume == scan.shape
    ensures r.slices == Zeros && Renderable(r)
    ensures r.files == v.files && r.index == v.index
    ensures r.animating == v.animating && r.caption == v.caption
  {
    v.(volume := scan.shape, subject := Paths.SubjectId(scan.path), slices := Zeros)
  }

  /** `update_views`, once every view has been drawn: the label shows the subject. */
  function Redraw(v: Viewer): (r: Viewer)
    requires Renderable(v)
    ensures Renderable(r)
    ensures r.caption == Showing(v.subject)
    ensures SameCatalog(v, r) && r.slices == v.slices && r.animating == v.animating
  {
    var r := v.(caption := Showing(v.subject));
    SameViewsRenderable(v, r);
    r
  }

  /** The viewer after its constructor: the first file loaded, nothing animating. */
  function Init(files: seq<Scan>): (r: Viewer)
    requires |files| > 0
    ensures Valid(r) && Renderable(r)
    ensures r.files == files && r.index == 0
    ensures r.subject == IdAt(files, 0) && r.volume == files[0].shape
    ensures r.slices == Zeros && r.animating == NoneAnimating
    ensures r.caption == Showing(r.subject)
  {
    var blank := Viewer(files, 0, "", files[0].shape, Zeros, NoneAnimating, NotFound(""));
    Redraw(LoadSubject(blank, files[0]))
  }

  /** The state right after moving the cursor to `k` and loading that file. */
  predicate MovedTo(v: Viewer, k: int, r: Viewer)
    requires 0 <= k < |v.files|
  {
    && r.files == v.files
    && r.index == k
    && r.subject == IdAt(v.files, k)
    && r.volume == v.files[k].shape
    && r.slices == Zeros
    && r.animating == v.animating
    && r.caption == Showing(r.subject)
  }

  /** Move the cursor to `k`, `load_subject` the file there and `update_views`. */
  function MoveTo(v: Viewer, k: int): (r: Viewer)
    requires 0 <= k < |v.files|
    ensures Valid(r) && Renderable(r)
    ensures MovedTo(v, k, r)
  {
    Redraw(LoadSubject(v.(index := k), v.files[k]))
  }

  /** `next_subject`: one step forward unless already at the last file. */
  function Next(v: Viewer): (r: Viewer)
    requires Valid(v)
    ensures Valid(r) && (Renderable(v) ==> Renderable(r))
    ensures v.index < |v.files| - 1 ==> MovedTo(v, v.index + 1, r)
    ensures v.index == |v.files| - 1 ==> r == v
  {
    if v.index < |v.files| - 1 then MoveTo(v, v.index + 1) else v
  }

  /** `prev_subject`: one step back unless already at the first file. */
  function Prev(v: Viewer): (r: Viewer)
    requires Valid(v)
    ensures Valid(r) && (Renderable(v) ==> Renderable(r))
    ensures v.index > 0 ==> MovedTo(v, v.index - 1, r)
    ensures v.index == 0 ==> r == v
  {
    if v.index > 0 then MoveTo(v, v.index - 1) else v
  }

  /** Some file in the list has subject id `target`. */
  predicate Lists(files: seq<Scan>, target: string) {
    exists k :: 0 <= k < |files| && IdAt(files, k) == target
  }

  /** The subject ids of the files, in list order. */
  function Ids(files: seq<Scan>): (r: seq<string>)
    ensures |r| == |files|
    ensures forall k :: 0 <= k < |files| ==> r[k] == IdAt(files, k)
  {
    seq(|files|, k requires 0 <= k < |files| => IdAt(files, k))
  }

  /** The loop of `go_to_subject`: the first position at or after `from`
      whose subject id is `target`. */
  function FindSubject(ids: seq<string>, target: string, from: nat): (r: Option<nat>)
    requires from <= |ids|
    ensures r.Some? ==> from <= r.value < |ids| && ids[r.value] == target
    ensures forall k :: from <= k < |ids| && (r.None? || k < r.value) ==> ids[k] != target
    decreases |ids| - from
  {
    if from == |ids| then None
    else if ids[from] == target then Some(from)
    else FindSubject(ids, target, from + 1)
  }

  /** The search over the file list succeeds exactly when the list holds the
      target id, and then at a position holding it with none before. */
  lemma FindSubjectFindsListed(files: seq<Scan>, target: string)
    ensures FindSubject(Ids(files), target, 0).Some? <==> Lists(files, target)
    ensures FindSubject(Ids(files), target, 0).Some? ==>
      var k := FindSubject(Ids(files), target, 0).value;
      && k < |files| && IdAt(files, k) == target
      && forall j :: 0 <= j < k ==> IdAt(files, j) != target
  {
    var ids := Ids(files);
    var r := FindSubject(ids, target, 0);
    if r.Some? {
      assert ids[r.value] == IdAt(files, r.value);
      forall j | 0 <= j < r.value ensures IdAt(files, j) != target {
        assert ids[j] != target;
      }
    } else {
      forall j | 0 <= j < |files| ensures IdAt(files, j) != target {
        assert ids[j] != target;
      }
    }
  }

  /** `go_to_subject`: jump to the first file whose id is the stripped entry.
      A blank entry does nothing; an unknown id only changes the label. */
  function GoTo(v: Viewer, entry: string): (r: Viewer)
    requires Valid(v)
    ensures Valid(r) && r.files == v.files
    ensures Renderable(v) ==> Renderable(r)
    ensures Paths.Strip(entry) == [] ==> r == v
    ensures Paths.Strip(entry) != [] && Lists(v.files, Paths.Strip(entry)) ==>
      && MovedTo(v, r.index, r)
      && r.subject == Paths.Strip(entry)
      && forall k :: 0 <= k < r.index ==> IdAt(v.files, k) != Paths.Strip(entry)
    ensures Paths.Strip(entry) != [] && !Lists(v.files, Paths.Strip(entry)) ==>
      r == v.(caption := NotFound(Paths.Strip(entry)))
  {
    var target := Paths.Strip(entry);
    if target == [] then v
    else
      FindSubjectFindsListed(v.files, target);
      match FindSubject(Ids(v.files), target, 0)
      case Some(k) => MoveTo(v, k)
      case None =>
        var r := v.(caption := NotFound(target));
        SameViewsRenderable(v, r);
        r
  }

  /** What one tick does to an orientation whose flag is set: its index goes
      up by exactly one and nothing else about the catalog or the other
      orientations changes; past `MaxAnimated` the flag drops and nothing is
      drawn, otherwise the flag stays up and the views are redrawn with one
      further tick scheduled, unless the redraw faults on another
      orientation's out-of-range index. */
  predicate AdvancedOnce(v: Viewer, o: Orientation, r: Step) {
    var i := v.slices.Get(o) + 1;
    && SameCatalog(v, r.viewer)
    && r.viewer.slices.Get(o) == i
    && (forall p :: p != o ==> r.viewer.slices.Get(p) == v.slices.Get(p))
    && (forall p :: p != o ==> r.viewer.animating.Get(p) == v.animating.Get(p))
    && (i > MaxAnimated(v, o) ==>
          r.effect == Stopped && !r.viewer.animating.Get(o) && r.viewer.caption == v.caption)
    && (i <= MaxAnimated(v, o) ==>
          && r.viewer.animating.Get(o)
          && (r.effect == Scheduled <==> OthersInRange(v, o))
          && (r.effect == Scheduled ==> r.viewer.caption == Showing(v.subject))
          && (r.effect != Scheduled ==> r.effect == Faulted && r.viewer.caption == v.caption))
  }

  /** `animate_slice`: one firing of an orientation's timer. */
  function Tick(v: Viewer, o: Orientation): (r: Step)
    ensures SameCatalog(v, r.viewer)
    ensures !v.animating.Get(o) ==> r == Step(v, Quiet)
    ensures v.animating.Get(o) ==> AdvancedOnce(v, o, r)
    ensures r.effect == Scheduled ==> Renderable(r.viewer) && r.viewer.slices.Get(o) <= MaxAnimated(v, o)
  {
    if !v.animating.Get(o) then Step(v, Quiet)
    else
      var i := v.slices.Get(o) + 1;
      var w := v.(slices := v.slices.Set(o, i));
      OthersInRangeFrame(v, w, o);
      if i > MaxAnimated(v, o) then
        Step(w.(animating := w.animating.Set(o, false)), Stopped)
      else if !OthersInRange(w, o) then
        Step(w, Faulted)
      else
        RenderableFromParts(w, o);
        Step(Redraw(w), Scheduled)
  }

  /** `start`: raise the flag and tick, unless the orientation is already animating. */
  function Start(v: Viewer, o: Orientation): (r: Step)
    ensures SameCatalog(v, r.viewer)
    ensures v.animating.Get(o) ==> r == Step(v, Quiet)
    ensures !v.animating.Get(o) ==> AdvancedOnce(v.(animating := v.animating.Set(o, true)), o, r)
  {
    if !v.animating.Get(o) then Tick(v.(animating := v.animating.Set(o, true)), o)
    else Step(v, Quiet)
  }

  /** `stop`: lower one flag; the next tick of that orientation then does nothing. */
  function Stop(v: Viewer, o: Orientation): (r: Viewer)
    ensures !r.animating.Get(o)
    ensures forall p :: p != o ==> r.animating.Get(p) == v.animating.Get(p)
    ensures SameCatalog(v, r) && r.slices == v.slices && r.caption == v.caption
  {
    v.(animating := v.animating.Set(o, false))
  }

  /** `replay`: back to slice 0 with the flag raised, then one tick, whatever
      the orientation was doing before (even if a loop is already scheduled). */
  function Replay(v: Viewer, o: Orientation): (r: Step)
    ensures SameCatalog(v, r.viewer)
    ensures AdvancedOnce(v.(slices := v.slices.Set(o, 0), animating := v.animating.Set(o, true)), o, r)
    ensures r.viewer.slices.Get(o) == 1
  {
    Tick(v.(slices := v.slices.Set(o, 0), animating := v.animating.Set(o, true)), o)
  }

  function Max(a: int, b: int): int {
    if a < b then b else a
  }

  /** The ascending run `lo, lo + 1, ..., hi - 1`. */
  function Range(lo: int, hi: int): (r: seq<int>)
    ensures |r| == Max(0, hi - lo)
    ensures forall k :: 0 <= k < |r| ==> r[k] == lo + k
    decreases hi - lo
  {
    if hi <= lo then [] else [lo] + Range(lo + 1, hi)
  }

  /** The ranking measure of an orientation's tick loop: the number of
      further redraws at most, `extent - 1 - index` while the flag is up. */
  function Rank(v: Viewer, o: Orientation): nat {
    var gap := v.volume.Extent(o) - 1 - v.slices.Get(o);
    if v.animating.Get(o) && gap > 0 then gap else 0
  }

  /** Tick an orientation repeatedly for as long as each tick schedules the
      next one, recording the index of every redraw. The loop always ends:
      every scheduling tick lowers `Rank`. From a flag that is up and other
      views that can be drawn, it ends with the flag down, the index at
      `max(i + 1, extent - 1)` and the redrawn indices `i + 1 .. extent - 2`. */
  function Run(v: Viewer, o: Orientation): (r: Animation)
    ensures !v.animating.Get(o) ==> r == Animation(v, [], Quiet)
    ensures v.animating.Get(o) && OthersInRange(v, o) ==>
      var i := v.slices.Get(o);
      && r.last == Stopped
      && r.frames == Range(i + 1, v.volume.Extent(o) - 1)
      && r.viewer == v.(slices := v.slices.Set(o, Max(i + 1, v.volume.Extent(o) - 1)),
                        animating := v.animating.Set(o, false),
                        caption := if r.frames == [] then v.caption else Showing(v.subject))
    decreases Rank(v, o)
  {
    var s := Tick(v, o);
    if s.effect == Scheduled then
      var rest := Run(s.viewer, o);
      Animation(rest.viewer, [s.viewer.slices.Get(o)] + rest.frames, rest.last)
    else
      Animation(s.viewer, [], s.effect)
  }

  /** The events the controller reacts to: buttons, keys and timer firings. */
  datatype Command =
    | NextSubject
    | PrevSubject
    | GoToSubject(entry: string)
    | StartAnimation(o: Orientation)
    | StopAnimation(o: Orientation)
    | ReplayAnimation(o: Orientation)
    | TimerFires(o: Orientation)

  /** Dispatch one event. Navigation never touches the timers, so its effect is `Quiet`. */
  function Apply(v: Viewer, c: Command): (r: Step)
    requires Valid(v)
    ensures Valid(r.viewer) && r.viewer.files == v.files
  {
    match c
    case NextSubject => Step(Next(v), Quiet)
    case PrevSubject => Step(Prev(v), Quiet)
    case GoToSubject(entry) => Step(GoTo(v, entry), Quiet)
    case StartAnimation(o) => Start(v, o)
    case StopAnimation(o) => Step(Stop(v, o), Quiet)
    case ReplayAnimation(o) => Replay(v, o)
    case TimerFires(o) => Tick(v, o)
  }

  /** Dispatch a sequence of events in order. */
  function ApplyAll(v: Viewer, cs: seq<Command>): (r: Step)
    requires Valid(v)
    ensures Valid(r.viewer) && r.viewer.files == v.files
    decreases |cs|
  {
    if |cs| == 0 then Step(v, Quiet)
    else
      var s := Apply(v, cs[0]);
      if |cs| == 1 then s else ApplyAll(s.viewer, cs[1..])
  }
}

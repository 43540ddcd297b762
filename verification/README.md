# NIfTI brain viewer: the controller state machine in Dafny

The viewer (`NiftiViewer` in `BrainViewer.py`) steps through a sorted list of
brain-scan files and shows three orthogonal slices of the current volume
(sagittal, coronal, axial). Each slice can be animated: a timer advances that
orientation's slice index and redraws, until the index passes the last
animated slice or the user stops it.

This project models the controller as an immutable record and pure
transitions:

- `Viewer.Viewer`: the file list (each entry a path plus the shape loading it
  yields), the cursor `index`, the current subject id, the loaded volume's
  shape, a slice index and an animation flag per orientation, and the subject
  label.
- `Paths`: the string rules, which are the POSIX base name, Python's
  `str.strip()` and the subject id `basename(p).split("_")[0]`.
- `Viewer`: `Init`, `Next`, `Prev`, `GoTo`, `LoadSubject`, `Redraw`
  (`update_views`), `Tick` (`animate_slice`), `Start`, `Stop`, `Replay`, the
  event dispatch `Apply`, and `Run`, which drives one orientation's ticks until
  they stop scheduling.
- `ViewerProperties`: lemmas that relate several transitions.
- `Corrected`: the controller with the one defect below repaired, and the
  safety property proved for it.

A redraw is modelled by its only state effect: the label then shows the
subject. A redraw also reads every orientation's slice, so it raises
(numpy `IndexError`) when some index is outside its volume. `Tick` reports
this as the effect `Faulted`. The exception escapes before `master.after`,
so the index stays advanced, the flag stays up and nothing is scheduled.

Behaviour worth stating precisely:

- Changing subject resets the slice indices but does not lower the animation
  flags (`load_subject`). A tick that was already scheduled then keeps
  animating the new volume. `ViewerProperties.NavigationKeepsAnimationRunning`
  states this.
- An animation from slice 0 redraws slices `1 .. extent - 2`, which is
  `max(0, extent - 2)` redraws. It ends with the index at `max(1, extent - 1)`.
  On an axis of a single slice that final index 1 is outside the volume: there
  the very first `start` already overruns (`ViewerProperties.StartOnSingleSliceOverruns`).
- A jump goes to the first file whose id matches. Ids need not be unique.

## Model

| member | source | states |
|---|---|---|
| Paths.IsSpaceIsPythonWhitespace | BrainViewer.py:83 | the characters `strip()` removes are exactly the 29 code points Python 3 counts as whitespace |
| Paths.TrimLeft | BrainViewer.py:83 | drops exactly the leading Python whitespace: the result is the longest suffix that does not start with a space |
| Paths.TrimRight | BrainViewer.py:83 | drops exactly the trailing Python whitespace: the result is the longest prefix that does not end with a space |
| Paths.Strip | BrainViewer.py:83 | the stripped entry is empty exactly when the entry is all whitespace; otherwise it neither starts nor ends with whitespace |
| Paths.TrimLeftDropsPadding | BrainViewer.py:83 | leading whitespace before a word is removed and nothing more |
| Paths.TrimRightDropsPadding | BrainViewer.py:83 | trailing whitespace after a word is removed and nothing more |
| Paths.StripRemovesPadding | BrainViewer.py:83 | stripping a whitespace-padded word gives back exactly the word |
| Paths.BaseName | BrainViewer.py:89 | the base name has no `/` and is a suffix of the path |
| Paths.BaseNameFollowsSlash | BrainViewer.py:89 | the base name is either the whole path or starts right after a `/`, so no longer slash-free suffix exists |
| Paths.FirstField | BrainViewer.py:89 | `split("_")[0]` is a prefix with no `_`, and is either the whole string or followed by `_` |
| Paths.SubjectId | BrainViewer.py:102 | the subject id is a prefix of the base name with no `_` or `/`, and is either the whole base name or followed by its first `_` |
| Paths.BaseNameAfterSlash | BrainViewer.py:89 | the base name of `dir/name` is `name` when `name` has no slash |
| Paths.BaseNameOfPlainName | BrainViewer.py:89 | a path without a slash is its own base name |
| Paths.FirstFieldBeforeUnderscore | BrainViewer.py:89 | the first field of `id_rest` is `id` when `id` has no underscore |
| Paths.SubjectIdOfScanName | BrainViewer.py:173 | a file named `<dir>/<id>_<suffix>` has subject id `id` exactly |
| Viewer.LoadSubject | BrainViewer.py:99-108 | loading sets the subject id and shape from the file and all three slices to 0; it leaves the cursor, the flags and the label alone |
| Viewer.Axis | BrainViewer.py:134 | sagittal, coronal and axial slice along axes 0, 1 and 2, each axis cut by exactly one orientation |
| Viewer.MaxAnimated | BrainViewer.py:135 | the last animated index is the largest whose next slice is still inside the volume, and at least -1 |
| Viewer.Redraw | BrainViewer.py:110-128 | a successful redraw needs every view drawable; it sets the label to the subject and changes no index, flag, cursor or loaded subject |
| Viewer.Init | BrainViewer.py:10-75 | the new viewer is at file 0 with that file loaded, all slices 0, no animation and all views drawable |
| Viewer.MoveTo | BrainViewer.py:159-162 | moving the cursor to `k` loads file `k`, zeroes the slices, keeps the flags and shows the new subject |
| Viewer.Next | BrainViewer.py:158-162 | below the last file the cursor advances by exactly one and loads that file; at the last file the state is unchanged; the cursor stays in range |
| Viewer.Prev | BrainViewer.py:164-168 | above the first file the cursor goes back by exactly one and loads that file; at the first file the state is unchanged; the cursor stays in range |
| Viewer.Ids | BrainViewer.py:88-89 | the list of subject ids has one entry per file, the id of that file |
| Viewer.FindSubject | BrainViewer.py:88-94 | the search returns a position whose id is the target, and no earlier position has it; with no result no position has it |
| Viewer.FindSubjectFindsListed | BrainViewer.py:88-97 | the search over the files succeeds exactly when some file has the target id, and then finds the first such file |
| Viewer.GoTo | BrainViewer.py:81-97 | a blank entry changes nothing; a listed id moves to its first position and loads it; an unlisted id changes only the label |
| Viewer.Tick | BrainViewer.py:130-143 | with the flag down nothing happens. Otherwise the index goes up by exactly one and the other orientations are untouched. Past `extent - 2` the flag drops with no redraw. Otherwise the flag stays up, and either the views are redrawn with one tick scheduled or the redraw faults on another orientation's index |
| Viewer.Start | BrainViewer.py:145-148 | with the flag up nothing happens; otherwise the flag is raised and exactly one tick runs |
| Viewer.Stop | BrainViewer.py:150-151 | only the orientation's flag changes, to false |
| Viewer.Replay | BrainViewer.py:153-156 | the index is set to 0 and the flag raised whatever they were, then one tick runs, leaving the index at 1 |
| Viewer.Range | BrainViewer.py:135-140 | the redrawn indices `lo .. hi - 1` in order, `max(0, hi - lo)` of them |
| Viewer.Run | BrainViewer.py:130-143 | driving ticks always ends. From a raised flag and drawable other views, it ends with the flag down, the index at `max(i + 1, extent - 1)` and redraws of exactly `i + 1 .. extent - 2` |
| Viewer.Apply | BrainViewer.py:61-79 | every button, key or timer event keeps the cursor in range and the loaded subject equal to the file under it |
| Viewer.ApplyAll | BrainViewer.py:61-79 | any sequence of events keeps the cursor in range and the loaded subject equal to the file under it |
| ViewerProperties.NextThenPrev | BrainViewer.py:158-168 | `next` then `previous` from a non-last position returns to the same subject with all slices 0 |
| ViewerProperties.PrevThenNext | BrainViewer.py:158-168 | `previous` then `next` from a non-first position returns to the same subject with all slices 0 |
| ViewerProperties.GoToFindsListedSubject | BrainViewer.py:81-94 | typing a listed id, with whitespace around it, lands on a file with that id at or before its position, with slices 0 |
| ViewerProperties.NavigationKeepsAnimationRunning | BrainViewer.py:104-108 | changing subject leaves a running flag up, so a stale tick advances the new subject's slice to 1 |
| ViewerProperties.StopThenTickIsQuiet | BrainViewer.py:150-151 | after `stop`, the next tick of that orientation changes nothing and schedules nothing |
| ViewerProperties.ReplayForgetsPrior | BrainViewer.py:153-156 | `replay` gives the same result whatever that orientation's prior index and flag were |
| ViewerProperties.TickLowersRank | BrainViewer.py:135-143 | every tick that schedules another lowers `extent - 1 - index`, the loop's ranking measure |
| ViewerProperties.AnimationFromZero | BrainViewer.py:135-140 | from slice 0 the animation ends with the flag down and the index at `max(1, extent - 1)`. It redraws exactly `1 .. extent - 2`, and no redrawn index exceeds `extent - 2` |
| ViewerProperties.RestartAfterFinishOverruns | BrainViewer.py:145-148 | `start` after an auto-stop moves the index outside the volume without a redraw; from inside the animated range it lands exactly on the extent |
| ViewerProperties.StartOnSingleSliceOverruns | BrainViewer.py:135-148 | on an axis of one slice, the first `start` from index 0 stores index 1, outside the volume, and drops the flag |
| ViewerProperties.RestartThenRedrawFaults | BrainViewer.py:130-148 | on shape (2, 3, 3), `start` sagittal twice then `start` coronal faults in the redraw and leaves the coronal flag stuck up |
| Corrected.ClampedTick | BrainViewer.py:130-143 | the tick with its stored index clamped to the last slice keeps a drawn orientation in range. It faults only when another view is already out of range |
| Corrected.ClampedStart | BrainViewer.py:145-148 | `start` over the clamped tick keeps all views drawable and never faults |
| Corrected.ClampedReplay | BrainViewer.py:153-156 | `replay` over the clamped tick keeps all views drawable and never faults |
| Corrected.ClampedKeepsRenderable | BrainViewer.py:130-143 | from drawable views a clamped tick keeps them drawable and never faults |
| Corrected.ClampedAgreesInRange | BrainViewer.py:130-143 | wherever the original tick stays inside the volume, the clamped tick is identical to it |
| Corrected.ClampedApply | BrainViewer.py:61-79 | with the clamped animation operations, every event keeps all views drawable and never faults |
| Corrected.ClampedApplyAll | BrainViewer.py:61-79 | with the clamped animation operations, any sequence of events keeps the cursor in range, and from drawable views keeps every view drawable with no fault at the end |
| Corrected.ClampedNeverFaults | BrainViewer.py:61-79 | from drawable views, no prefix of any event sequence ends in a fault or in an undrawable view |
| Corrected.ClampedViewerNeverFaults | BrainViewer.py:10-19 | from the freshly opened viewer, no sequence of events faults with the clamped tick |
| Corrected.ClampedRestartRedraws | BrainViewer.py:130-148 | the event sequence that faults in the original redraws and schedules with the clamped tick |

## Left out

- Loading (`nib.load`, `get_fdata`): a volume is only its shape, carried by its file entry. Loading always succeeds, as the code has no error path, and every extent is at least 1.
- Rendering (`np.rot90`, `imshow`, titles, canvas drawing): a redraw is reduced to its label update and its index check. The views drawn before a faulting one are not modelled.
- Tk widgets and layout, including the entry and `Go` button being recreated on each loop iteration, and the key bindings. A key press is the same event as its button.
- `master.after` scheduling and the delay `speed`: a timer firing is the explicit event `TimerFires`. Any order of events is allowed, so the model does not track which ticks are pending.
- The `__main__` block (glob, sort, fixed path, speed).
- Viewer.Init: requires a non-empty file list; on an empty list the constructor raises on `file_list[0]`.
- Paths.BaseName: POSIX separators only (`/`). Its own contract does not say the suffix starts after the last `/`; `Paths.BaseNameFollowsSlash` states that.
- Paths.Strip: its own contract does not say the result is a contiguous piece of the entry; `Paths.StripRemovesPadding` states that for every padded word.

## Findings

| source | as written | input that shows it | evidently intended | confidence | as-written member | corrected member |
|---|---|---|---|---|---|---|
| BrainViewer.py:130-148 | `animate_slice` increments the index before checking the bound. So `start` on an orientation that has already auto-stopped at `extent - 1` stores `extent`, one past the last slice. On an axis of a single slice (`max_index` is -1) the very first `start` already stores 1. A change of subject resets the indices and redraws safely, but the next tick of another orientation redraws with the bad index and raises, leaving that orientation's flag up with no tick scheduled. | first volume of shape (2, 3, 3): press `start` sagittal, `start` sagittal, `start` coronal | every slice index stays in `[0, extent - 1]` so every redraw succeeds | high; not executed | ViewerProperties.RestartThenRedrawFaults | Corrected.ClampedApplyAll |

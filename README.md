# Landmark database of the Basalt visual-inertial estimator, in Dafny

This project models the sliding-window landmark bookkeeping of Basalt's
visual-inertial estimator (`include/basalt/vi_estimator/landmark_database.h`)
and proves properties of it.

The database keeps two indexes that must stay in step:

- `kpts` maps a landmark id to its `Landmark`. A landmark has a host view
  `host_kf_id` and a forward map `obs` from target view to 2D position.
- `observations` is the reverse index. It maps a host view to a target view
  to the set of landmark ids hosted in the first and observed in the second.

Files and modules:

- `landmark.dfy` (module `Landmarks`): the identifiers (`FrameId`,
  `TimeCamId`, `LandmarkId`), `KeypointObservation`, and the `Landmark`
  record with its private snapshot. `Backup` and `Restore` are functions on
  landmark values, because the database stores landmarks by value.
- `status.dfy` (module `Status`): the `NotFound` and `DuplicateKey` errors
  and the outcome types that carry them.
- `observation_index.dfy` (module `ObservationIndex`): the reverse index as
  a value. `Mirrors` says the forward maps and the reverse index are exact
  mirrors. `Pruned` says no empty inner map or id set is left. It also holds
  the two elementary index updates (`Insert`, `Erase`) with the proof that
  each keeps both invariants, and the proof that the invariants determine
  the index from the landmark map.
- `database_spec.dfy` (module `DatabaseSpec`): the effect of each removal
  and rollback on the landmark map, written as functions of the old map:
  `WithoutObservations`, `Slide`/`Trim`, `BackupAll`, `RestoreAll`. It also
  holds the lemmas about those functions: the `MinNumObs = 2` cascade, what a
  window slide leaves behind, and rollback.
- `landmark_database.dfy` (module `LandmarkDatabases`): class
  `LandmarkDatabase` with fields `kpts` and `observations`. Its object
  invariant `Valid()` is: every landmark is stored under its own id, the two
  indexes mirror each other, and the index is pruned. Every mutating method
  keeps `Valid()` and states the new `kpts` exactly. The new `observations`
  is then fixed as well: `ObservationIndex.IndexDetermined` proves that a
  valid index is a function of `kpts`. The erase-while-iterating loops of the
  header's private helpers are `while` loops over key sets. They go through
  the two helpers `RemoveLandmarkHelper` and `RemoveLandmarkObservationHelper`.

The bodies of most operations live in `landmark_database.cpp`, which is not
part of this model. The header shows only their signatures, so the model
makes these assumptions about what they do:

- A missing landmark id is reported as `NotFound`.
- `addLandmark` on an id already in use is reported as `DuplicateKey`.
- `addLandmark` stores its argument with the `id` field set to the key it is
  stored under.
- `removeFrame` removes every observation of the frame, removes every
  landmark hosted in the frame, and cascades.
- `removeKeyframes` removes every landmark hosted in `kfs_to_marg`, removes
  every observation whose target frame is in any of the three sets, and
  cascades.
- `min_num_obs` counts entries of `obs` only. The host view does not count.
- The cascade of `removeFrame` and `removeKeyframes` checks every landmark
  in the database, not only those the frames touch. So after either call,
  every surviving landmark has at least `min_num_obs` observations.

Two further modelling points:

- `restore()` has no guard for a missing backup
  (`landmark_database.h:77-80`). `Restore` copies whatever snapshot the
  landmark carries.
- `Valid()` does not require every landmark to have two observations. A new
  landmark may come with no observations and collect them one by one through
  `addObservation`. The minimum is enforced only when observations are
  removed.

## Model

| member | source | states |
|---|---|---|
| `Landmarks.RestoreUndoesParameterChange` | include/basalt/vi_estimator/landmark_database.h:72-80 | backup, then any new direction and inverse distance, then restore gives back exactly the backed-up landmark, including its original direction and inverse distance |
| `Landmarks.RestoreKeepsStructure` | include/basalt/vi_estimator/landmark_database.h:77-80 | restore changes neither the host view, nor the observations, nor the id, nor the snapshot |
| `Landmarks.BackupKeepsLandmark` | include/basalt/vi_estimator/landmark_database.h:72-75 | backup changes only the snapshot; backing up twice is the same as once; restoring right after a backup changes nothing |
| `ObservationIndex.InsertKeepsMirror` | include/basalt/vi_estimator/landmark_database.h:155-157 | recording observation `t` on a landmark and inserting it under `observations[host][t]` keeps the two indexes mirrored and the index pruned |
| `ObservationIndex.EraseKeepsMirror` | include/basalt/vi_estimator/landmark_database.h:152-153 | erasing one observation from a landmark and from the reverse index, pruning emptied containers, keeps the indexes mirrored and pruned |
| `ObservationIndex.DropKeepsMirror` | include/basalt/vi_estimator/landmark_database.h:151 | a landmark without observations has no index entries and can be erased from `kpts` alone |
| `ObservationIndex.AddBareKeepsMirror` | include/basalt/vi_estimator/landmark_database.h:100 | a new landmark without observations can be put into `kpts` alone |
| `ObservationIndex.IndexDetermined` | include/basalt/vi_estimator/landmark_database.h:155-157 | two pruned indexes that both mirror the same landmark map are equal: the reverse index is a function of `kpts` |
| `ObservationIndex.NoHostNoEntry` | include/basalt/vi_estimator/landmark_database.h:155-157 | when no landmark is hosted in view `h`, the pruned index has no entry for `h` |
| `ObservationIndex.NoDanglingId` | include/basalt/vi_estimator/landmark_database.h:137 | an id that is not in `kpts` is in no id set of a sound index |
| `ObservationIndex.EntriesAreObservations` | include/basalt/vi_estimator/landmark_database.h:133 | a mirrored index has exactly one (host, target, id) entry per observation of each landmark |
| `ObservationIndex.EntriesOfLandmark` | include/basalt/vi_estimator/landmark_database.h:135 | in a mirrored index a stored landmark is named by exactly as many entries as it has target views |
| `DatabaseSpec.WithoutObservationsEffect` | include/basalt/vi_estimator/landmark_database.h:139 | after `removeObservations(id, targets)` the landmark survives exactly when at least `MinNumObs` observations remain, and then it has exactly `obs` minus `targets`; no other landmark changes |
| `DatabaseSpec.CascadeAtThreshold` | include/basalt/vi_estimator/landmark_database.h:159 | a landmark with exactly two observations is removed once one of them is removed |
| `DatabaseSpec.SurvivesAboveThreshold` | include/basalt/vi_estimator/landmark_database.h:159 | a landmark with more than two observations survives the removal of one and loses just that one |
| `DatabaseSpec.SlideGuarantees` | include/basalt/vi_estimator/landmark_database.h:109-110 | after a window slide no survivor is hosted in a dropped host frame, no surviving observation targets a dropped frame, every survivor has at least `MinNumObs` observations drawn from its old ones, and a landmark survives exactly when its host stays and enough observations stay |
| `DatabaseSpec.SlideKeepsIds` | include/basalt/vi_estimator/landmark_database.h:155 | a window slide keeps every landmark stored under its own id |
| `DatabaseSpec.SlideIdempotent` | include/basalt/vi_estimator/landmark_database.h:109-110 | sliding the window again by the same frames changes nothing more |
| `DatabaseSpec.WindowSlideExample` | include/basalt/vi_estimator/landmark_database.h:109-110 | with L1 hosted in F1 and observed in F2 and F3, and L2 hosted in F2 and observed in F1, marginalizing keyframe F1 removes both landmarks |
| `DatabaseSpec.DatabaseRollback` | include/basalt/vi_estimator/landmark_database.h:141-147 | database-wide backup, then any change of parameters, then database-wide restore gives back each landmark's backed-up direction and inverse distance; the key set of `kpts`, every host, every `obs` and every id stay unchanged |
| `DatabaseSpec.BackupRestoreKeepMirror` | include/basalt/vi_estimator/landmark_database.h:141-147 | database-wide backup and restore keep the reverse index mirrored and the ids consistent |
| `LandmarkDatabases.LandmarkDatabase.constructor` | include/basalt/vi_estimator/landmark_database.h:155-157 | a new database is empty and valid |
| `LandmarkDatabases.LandmarkDatabase.LandmarkExists` | include/basalt/vi_estimator/landmark_database.h:129 | true exactly for stored ids; in a valid database an id that is not stored appears nowhere in the index |
| `LandmarkDatabases.LandmarkDatabase.NumLandmarks` | include/basalt/vi_estimator/landmark_database.h:131 | the number of stored landmarks; zero exactly when `kpts` is empty |
| `LandmarkDatabases.LandmarkDatabase.GetLandmark` | include/basalt/vi_estimator/landmark_database.h:114-117 | the stored landmark, which in a valid database carries the id it was looked up by; `NotFound` exactly when the id is missing |
| `LandmarkDatabases.LandmarkDatabase.NumObservationsOf` | include/basalt/vi_estimator/landmark_database.h:135 | the number of target views of the landmark; in a valid database, also the number of reverse-index entries that name it; `NotFound` exactly when the id is missing |
| `LandmarkDatabases.LandmarkDatabase.GetObservations` | include/basalt/vi_estimator/landmark_database.h:125 | the reverse index; in a valid database its entries are exactly the observations of the stored landmarks |
| `LandmarkDatabases.LandmarkDatabase.GetLandmarks` | include/basalt/vi_estimator/landmark_database.h:127 | the landmark map; in a valid database each landmark is stored under its own id |
| `LandmarkDatabases.LandmarkDatabase.NumObservations` | include/basalt/vi_estimator/landmark_database.h:133 | the sum of the id-set sizes of the index equals the number of (landmark, target) observations in `kpts` |
| `LandmarkDatabases.LandmarkDatabase.GetHostKfs` | include/basalt/vi_estimator/landmark_database.h:119 | a duplicate-free list that holds a view exactly when some landmark is hosted in it |
| `LandmarkDatabases.LandmarkDatabase.GetLandmarksForHostWithIds` | include/basalt/vi_estimator/landmark_database.h:123 | every landmark hosted in `tcid`, exactly once, with its id, and nothing else |
| `LandmarkDatabases.LandmarkDatabase.GetLandmarksForHost` | include/basalt/vi_estimator/landmark_database.h:121 | every landmark hosted in `tcid`, exactly once, and nothing else |
| `LandmarkDatabases.LandmarkDatabase.AddLandmark` | include/basalt/vi_estimator/landmark_database.h:100 | with a fresh id, stores the landmark under that id with its `id` field set to that id (all other fields, the snapshot included, as given), makes `LandmarkExists` true, raises `NumLandmarks` by one, puts the id into `observations[host][t]` for every initial target `t`, and leaves other landmarks alone; with a used id, reports `DuplicateKey` and changes nothing |
| `LandmarkDatabases.LandmarkDatabase.AddObservation` | include/basalt/vi_estimator/landmark_database.h:112 | on a stored landmark, sets `obs[target] = o.pos`, puts the id into `observations[host][target]`, and changes no other landmark; otherwise reports `NotFound` and changes nothing |
| `LandmarkDatabases.LandmarkDatabase.RemoveLandmarkObservationHelper` | include/basalt/vi_estimator/landmark_database.h:152-153 | erases one observation from the landmark and from the index; the database stays valid |
| `LandmarkDatabases.LandmarkDatabase.RemoveLandmarkHelper` | include/basalt/vi_estimator/landmark_database.h:151 | erases the landmark and every index entry of it; the database stays valid |
| `LandmarkDatabases.LandmarkDatabase.RemoveLandmark` | include/basalt/vi_estimator/landmark_database.h:137 | the landmark is gone, no set of the index contains its id, and no empty container remains; `NotFound`, with nothing changed, if it was missing |
| `LandmarkDatabases.LandmarkDatabase.RemoveObservations` | include/basalt/vi_estimator/landmark_database.h:139 | the new `kpts` is `WithoutObservations` of the old one (each target erased; the landmark dropped below `MinNumObs`), with the index kept in step; `NotFound`, with nothing changed, if the landmark is missing |
| `LandmarkDatabases.LandmarkDatabase.RemoveFrame` | include/basalt/vi_estimator/landmark_database.h:102 | the new `kpts` is the window slide by `{frame}`: no landmark is hosted in the frame, no observation targets it, the index has no host entry in it, and the indexes still mirror each other |
| `LandmarkDatabases.LandmarkDatabase.RemoveKeyframes` | include/basalt/vi_estimator/landmark_database.h:109-110 | the new `kpts` is the window slide that drops hosts in `kfs_to_marg` and targets in any of the three sets; no survivor is hosted in `kfs_to_marg`, no observation targets a frame of the three sets, every survivor has at least `MinNumObs` observations, and the indexes still mirror each other |
| `LandmarkDatabases.LandmarkDatabase.Clear` | include/basalt/vi_estimator/landmark_database.h:104-107 | both `kpts` and `observations` are empty, so there are no landmarks and no observations |
| `LandmarkDatabases.LandmarkDatabase.Backup` | include/basalt/vi_estimator/landmark_database.h:141-143 | every landmark is replaced by its backed-up value; the key set and the index are unchanged |
| `LandmarkDatabases.LandmarkDatabase.Restore` | include/basalt/vi_estimator/landmark_database.h:145-147 | every landmark is replaced by its restored value; the key set and the index are unchanged |

## Left out

- `include/basalt/vi_estimator/vio_estimator.h` as a whole. It holds the
  estimator's threading skeleton: atomic flags, bounded concurrent queues,
  lifecycle hooks without bodies, the factory, visualization data, and the
  trajectory-alignment and error utilities. These are concurrency and
  floating-point numerics, not landmark bookkeeping.
- The Eigen arithmetic on `direction`, `inv_dist` and
  `KeypointObservation::pos`. They are opaque values here (`Vec2` of reals,
  a real): the database only copies them. The template parameter `Scalar`
  (float or double) is not modelled.
- `operator<<` on `Landmark`. It is stream output.
- Iteration order of the hash maps, and so the order of the results of
  `getHostKfs`, `getLandmarksForHost` and `getLandmarksForHostWithIds`. The
  results are duplicate-free sequences whose contents are specified; their
  order is not.
- Returned references. `getLandmark`, `getLandmarks` and `getObservations`
  are read access to the state. Writes through the mutable `getLandmark`
  reference appear only in `DatabaseSpec.DatabaseRollback`, as an arbitrary
  change of each landmark's parameters.
- Integer widths. Counts are unbounded naturals, not `int` or `size_t`.
  `LandmarkId` is an unbounded integer, so the `int` to id conversion of
  `kpt_id` and of `landmarkExists(int)` is the identity.
- The process-level failure modes. `NotFound` and `DuplicateKey` are
  returned as outcomes that leave the state unchanged. The C++ code asserts
  or throws instead.
- The requirement that a host frame stays inside the active window. The
  model keeps it only as a guarantee of `removeKeyframes`: no survivor is
  hosted in a marginalized keyframe.
- Landmarks with fewer than `MinNumObs` observations. Between insertion and
  the next removal they are allowed, as described above; `Valid()` does not
  exclude them.
- `LandmarkDatabases.LandmarkDatabase.AddLandmark`: the stored landmark's
  `id` field is overwritten with the key `lm_id`. The header does not show
  whether `addLandmark` does this. The model assumes it so that every
  landmark carries its own id. All other fields, the backup snapshot
  included, are stored as passed.
- `LandmarkDatabases.LandmarkDatabase.RemoveFrame`: landmarks the frame does
  not touch are also dropped when they have fewer than `MinNumObs`
  observations, for example one added with a single observation. The model
  cascades over the whole database, so that after any removal no landmark
  below `min_num_obs` (`landmark_database.h:159`) remains. A body that only
  re-checks the landmarks it changed would keep such landmarks.
- `LandmarkDatabases.LandmarkDatabase.RemoveKeyframes`: for the same reason
  as `RemoveFrame`, landmarks that no marginalized frame touches are also
  dropped when they have fewer than `MinNumObs` observations.

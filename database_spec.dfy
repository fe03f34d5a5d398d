/**
 The effect of each landmark database operation on the landmark map, stated
 as functions of the old map, and the properties the database promises about
 those effects: the minimum-observation cascade, what a window slide leaves
 behind, and rollback of the 3D position parameters.
 */
module DatabaseSpec {
  import opened Landmarks
  import opened Status
  import opened ObservationIndex

  /** A landmark with fewer observations than this (host view not counted) does not persist. */
  const MinNumObs: nat := 2

  /** The landmark map after `removeObservations(id, targets)`. */
  function WithoutObservations(kpts: LandmarkMap, id: LandmarkId, targets: set<TimeCamId>): LandmarkMap
    requires id in kpts
  {
    var lm := kpts[id].(obs := kpts[id].obs - targets);
    if |lm.obs| < MinNumObs then kpts - {id} else kpts[id := lm]
  }

  /** The observations of `obs` whose target frame is not among `dropTargets`. */
  function Kept(obs: map<TimeCamId, Vec2>, dropTargets: set<FrameId>): map<TimeCamId, Vec2> {
    map t | t in obs && t.frame_id !in dropTargets :: obs[t]
  }

  /**
   What a window slide makes of one landmark: gone if its host frame is
   dropped or if fewer than MinNumObs observations survive; otherwise the
   landmark with the observations of dropped target frames erased.
   */
  function Trim(lm: Landmark, dropHosts: set<FrameId>, dropTargets: set<FrameId>): Option<Landmark> {
    if lm.host_kf_id.frame_id in dropHosts then None
    else
      var kept := Kept(lm.obs, dropTargets);
      if |kept| < MinNumObs then None else Some(lm.(obs := kept))
  }

  /** The landmark map after a window slide, applied to every landmark. */
  function Slide(kpts: LandmarkMap, dropHosts: set<FrameId>, dropTargets: set<FrameId>): LandmarkMap {
    map l | l in kpts && Trim(kpts[l], dropHosts, dropTargets).Some? :: Trim(kpts[l], dropHosts, dropTargets).value
  }

  /** The landmark map after `removeFrame(frame)`. */
  function RemoveFrameSpec(kpts: LandmarkMap, frame: FrameId): LandmarkMap {
    Slide(kpts, {frame}, {frame})
  }

  /** The landmark map after `removeKeyframes(kfs, poses, states)`. */
  function RemoveKeyframesSpec(kpts: LandmarkMap, kfs: set<FrameId>, poses: set<FrameId>, states: set<FrameId>): LandmarkMap {
    Slide(kpts, kfs, kfs + poses + states)
  }

  /** The landmark map after the database-wide `backup()`. */
  function BackupAll(kpts: LandmarkMap): LandmarkMap {
    map l | l in kpts :: kpts[l].Backup()
  }

  /** The landmark map after the database-wide `restore()`. */
  function RestoreAll(kpts: LandmarkMap): LandmarkMap {
    map l | l in kpts :: kpts[l].Restore()
  }

  /** `after` differs from `before` at most in the 3D position parameters of its landmarks. */
  ghost predicate SameButParameters(before: LandmarkMap, after: LandmarkMap) {
    && after.Keys == before.Keys
    && forall l :: l in before ==>
         after[l] == before[l].WithParameters(after[l].direction, after[l].inv_dist)
  }

  // ---------------------------------------------------------------- cascade

  /** removeObservations keeps a landmark exactly when MinNumObs observations remain, and touches no other. */
  lemma {:induction false} WithoutObservationsEffect(kpts: LandmarkMap, id: LandmarkId, targets: set<TimeCamId>)
    requires id in kpts
    ensures id in WithoutObservations(kpts, id, targets) <==> |(kpts[id].obs - targets).Keys| >= MinNumObs
    ensures id in WithoutObservations(kpts, id, targets) ==>
      WithoutObservations(kpts, id, targets)[id] == kpts[id].(obs := kpts[id].obs - targets)
    ensures forall l :: l != id ==>
      (l in WithoutObservations(kpts, id, targets) <==> l in kpts)
    ensures forall l :: l != id && l in kpts ==> WithoutObservations(kpts, id, targets)[l] == kpts[l]
  {
  }

  /** A landmark with exactly MinNumObs observations is removed once one more of them goes. */
  lemma {:induction false} CascadeAtThreshold(kpts: LandmarkMap, id: LandmarkId, t: TimeCamId)
    requires id in kpts && |kpts[id].obs| == MinNumObs && t in kpts[id].obs
    ensures id !in WithoutObservations(kpts, id, {t})
  {
    assert (kpts[id].obs - {t}).Keys == kpts[id].obs.Keys - {t};
  }

  /** A landmark with more than MinNumObs observations survives the removal of one, losing just it. */
  lemma {:induction false} SurvivesAboveThreshold(kpts: LandmarkMap, id: LandmarkId, t: TimeCamId)
    requires id in kpts && |kpts[id].obs| > MinNumObs
    ensures id in WithoutObservations(kpts, id, {t})
    ensures WithoutObservations(kpts, id, {t})[id].obs == kpts[id].obs - {t}
  {
    var rest := kpts[id].obs - {t};
    assert rest.Keys == kpts[id].obs.Keys - {t};
    assert |rest.Keys| >= |kpts[id].obs.Keys| - 1;
  }

  // ---------------------------------------------------------------- window slide

  /**
   After a slide no surviving landmark is hosted in a dropped host frame, no
   surviving observation targets a dropped target frame, every survivor keeps
   at least MinNumObs observations, and a landmark survives exactly when its
   host stays and enough of its observations stay.
   */
  lemma {:induction false} SlideGuarantees(kpts: LandmarkMap, dropHosts: set<FrameId>, dropTargets: set<FrameId>)
    ensures forall l :: l in Slide(kpts, dropHosts, dropTargets) ==> l in kpts
    ensures forall l :: l in Slide(kpts, dropHosts, dropTargets) ==>
      Slide(kpts, dropHosts, dropTargets)[l].host_kf_id.frame_id !in dropHosts
    ensures forall l, t :: l in Slide(kpts, dropHosts, dropTargets) && t in Slide(kpts, dropHosts, dropTargets)[l].obs ==>
      t.frame_id !in dropTargets && t in kpts[l].obs
    ensures forall l :: l in Slide(kpts, dropHosts, dropTargets) ==>
      |Slide(kpts, dropHosts, dropTargets)[l].obs| >= MinNumObs
    ensures forall l :: l in kpts ==>
      (l in Slide(kpts, dropHosts, dropTargets) <==>
        kpts[l].host_kf_id.frame_id !in dropHosts && |Kept(kpts[l].obs, dropTargets)| >= MinNumObs)
    ensures forall l :: l in Slide(kpts, dropHosts, dropTargets) ==>
      Slide(kpts, dropHosts, dropTargets)[l] == kpts[l].(obs := Kept(kpts[l].obs, dropTargets))
  {
    var r := Slide(kpts, dropHosts, dropTargets);
    forall l | l in r ensures l in kpts && r[l] == kpts[l].(obs := Kept(kpts[l].obs, dropTargets)) {
    }
  }

  /** A slide keeps every landmark stored under its own id. */
  lemma SlideKeepsIds(kpts: LandmarkMap, dropHosts: set<FrameId>, dropTargets: set<FrameId>)
    requires IdsConsistent(kpts)
    ensures IdsConsistent(Slide(kpts, dropHosts, dropTargets))
  {
  }

  /** Sliding the window twice by the same frames changes nothing the first slide did not. */
  lemma {:induction false} SlideIdempotent(kpts: LandmarkMap, dropHosts: set<FrameId>, dropTargets: set<FrameId>)
    ensures Slide(Slide(kpts, dropHosts, dropTargets), dropHosts, dropTargets) == Slide(kpts, dropHosts, dropTargets)
  {
    var once := Slide(kpts, dropHosts, dropTargets);
    forall l | l in once
      ensures Kept(once[l].obs, dropTargets) == once[l].obs
      ensures Trim(once[l], dropHosts, dropTargets) == Some(once[l])
    {
      assert once[l].obs == Kept(kpts[l].obs, dropTargets);
    }
  }

  /**
   The window-slide example: L1 hosted in F1 and observed in F2 and F3, L2
   hosted in F2 and observed in F1 only. Marginalizing keyframe F1 drops L1
   (its host goes) and then L2 (its last observation goes).
   */
  lemma {:induction false} WindowSlideExample(p: Vec2, lm1: Landmark, lm2: Landmark)
    requires lm1.host_kf_id == TimeCamId(1, 0) && lm1.obs == map[TimeCamId(2, 0) := p, TimeCamId(3, 0) := p]
    requires lm2.host_kf_id == TimeCamId(2, 0) && lm2.obs == map[TimeCamId(1, 0) := p]
    ensures RemoveKeyframesSpec(map[1 := lm1, 2 := lm2], {1}, {}, {}) == map[]
  {
    assert Kept(lm2.obs, {1}) == map[];
    assert Trim(lm2, {1}, {1}) == None;
  }

  // ---------------------------------------------------------------- rollback

  /**
   Database-wide backup, then any change of the 3D position parameters, then
   database-wide restore gives back every landmark's backed-up parameters; no
   step changes the set of landmarks, any host, any observation or any id.
   */
  lemma {:induction false} DatabaseRollback(kpts: LandmarkMap, changed: LandmarkMap)
    requires SameButParameters(BackupAll(kpts), changed)
    ensures RestoreAll(changed) == BackupAll(kpts)
    ensures RestoreAll(changed).Keys == kpts.Keys
    ensures forall l :: l in kpts ==>
      && RestoreAll(changed)[l].direction == kpts[l].direction
      && RestoreAll(changed)[l].inv_dist == kpts[l].inv_dist
      && RestoreAll(changed)[l].host_kf_id == kpts[l].host_kf_id
      && RestoreAll(changed)[l].obs == kpts[l].obs
      && RestoreAll(changed)[l].id == kpts[l].id
  {
    var b := BackupAll(kpts);
    forall l | l in kpts ensures RestoreAll(changed)[l] == b[l] {
      RestoreUndoesParameterChange(kpts[l], changed[l].direction, changed[l].inv_dist);
    }
  }

  /** Backup and restore keep the reverse index valid: they change no host, observation or id. */
  lemma BackupRestoreKeepMirror(kpts: LandmarkMap, idx: Index)
    requires IdsConsistent(kpts) && Mirrors(kpts, idx)
    ensures IdsConsistent(BackupAll(kpts)) && Mirrors(BackupAll(kpts), idx)
    ensures IdsConsistent(RestoreAll(kpts)) && Mirrors(RestoreAll(kpts), idx)
  {
  }
}

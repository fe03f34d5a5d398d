/**
 The landmark database: the landmark map `kpts` and the reverse observation
 index `observations`, updated together by every mutating operation.
 */
module LandmarkDatabases {
  import opened Landmarks
  import opened Status
  import opened ObservationIndex
  import opened DatabaseSpec

  /** `obs` while a window slide is half way through it: targets in `todo` are not yet examined. */
  ghost function PartlyKept(obs: map<TimeCamId, Vec2>, todo: set<TimeCamId>, dropTargets: set<FrameId>): map<TimeCamId, Vec2> {
    map t | t in obs && (t in todo || t.frame_id !in dropTargets) :: obs[t]
  }

  /** The landmark map while a window slide is half way through it: landmarks in `todo` are not yet examined. */
  ghost function PartlySlid(kpts: LandmarkMap, todo: set<LandmarkId>, dropHosts: set<FrameId>, dropTargets: set<FrameId>): LandmarkMap {
    map l | l in kpts && (l in todo || Trim(kpts[l], dropHosts, dropTargets).Some?) ::
      if l in todo then kpts[l] else Trim(kpts[l], dropHosts, dropTargets).value
  }

  /** The landmark map with landmark `l` trimmed by a window slide. */
  ghost function TrimAt(kpts: LandmarkMap, l: LandmarkId, dropHosts: set<FrameId>, dropTargets: set<FrameId>): LandmarkMap
    requires l in kpts
  {
    match Trim(kpts[l], dropHosts, dropTargets)
    case None => kpts - {l}
    case Some(lm) => kpts[l := lm]
  }

  lemma PartlySlidStep(kpts: LandmarkMap, todo: set<LandmarkId>, l: LandmarkId, dropHosts: set<FrameId>, dropTargets: set<FrameId>)
    requires todo <= kpts.Keys && l in todo
    ensures l in PartlySlid(kpts, todo, dropHosts, dropTargets)
    ensures TrimAt(PartlySlid(kpts, todo, dropHosts, dropTargets), l, dropHosts, dropTargets)
         == PartlySlid(kpts, todo - {l}, dropHosts, dropTargets)
  {
  }

  lemma PartlySlidEnds(kpts: LandmarkMap, dropHosts: set<FrameId>, dropTargets: set<FrameId>)
    ensures PartlySlid(kpts, kpts.Keys, dropHosts, dropTargets) == kpts
    ensures PartlySlid(kpts, {}, dropHosts, dropTargets) == Slide(kpts, dropHosts, dropTargets)
  {
  }

  lemma ObserveStep(kpts: LandmarkMap, l: LandmarkId, lm: Landmark, todo: set<TimeCamId>, t: TimeCamId)
    requires t in todo && t in lm.obs
    ensures Observe(kpts[l := lm.(obs := lm.obs - todo)], l, t, lm.obs[t]) == kpts[l := lm.(obs := lm.obs - (todo - {t}))]
  {
    assert (lm.obs - todo)[t := lm.obs[t]] == lm.obs - (todo - {t});
  }

  lemma UnobserveStep(kpts: LandmarkMap, l: LandmarkId, lm: Landmark, done: set<TimeCamId>, t: TimeCamId)
    ensures t in lm.obs - done ==>
      Unobserve(kpts[l := lm.(obs := lm.obs - done)], l, t) == kpts[l := lm.(obs := lm.obs - (done + {t}))]
    ensures t !in lm.obs - done ==> lm.obs - done == lm.obs - (done + {t})
  {
    assert (lm.obs - done) - {t} == lm.obs - (done + {t});
  }

  lemma KeptStep(kpts: LandmarkMap, l: LandmarkId, lm: Landmark, todo: set<TimeCamId>, t: TimeCamId, dropTargets: set<FrameId>)
    requires t in todo && t in lm.obs
    ensures t.frame_id in dropTargets ==>
      Unobserve(kpts[l := lm.(obs := PartlyKept(lm.obs, todo, dropTargets))], l, t)
        == kpts[l := lm.(obs := PartlyKept(lm.obs, todo - {t}, dropTargets))]
    ensures t.frame_id !in dropTargets ==>
      PartlyKept(lm.obs, todo, dropTargets) == PartlyKept(lm.obs, todo - {t}, dropTargets)
  {
    assert t.frame_id in dropTargets ==>
      PartlyKept(lm.obs, todo, dropTargets) - {t} == PartlyKept(lm.obs, todo - {t}, dropTargets);
  }

  class LandmarkDatabase {
    var kpts: LandmarkMap
    var observations: Index

    /** The invariant every public operation keeps. */
    ghost predicate Valid()
      reads this
    {
      IdsConsistent(kpts) && Mirrors(kpts, observations) && Pruned(observations)
    }

    constructor ()
      ensures Valid() && kpts == map[] && observations == map[]
    {
      kpts := map[];
      observations := map[];
    }

    // ------------------------------------------------------------ queries

    /** Whether a landmark is stored under `lmId`; if not, the index mentions it nowhere. */
    function LandmarkExists(lmId: LandmarkId): (b: bool)
      reads this
      ensures b <==> lmId in kpts
      ensures Valid() && !b ==> forall h, t :: h in observations && t in observations[h] ==> lmId !in observations[h][t]
    {
      NoDanglingId(kpts, observations, lmId);
      lmId in kpts
    }

    /** The number of stored landmarks. */
    function NumLandmarks(): (n: nat)
      reads this
      ensures n == |kpts.Keys|
      ensures n == 0 <==> kpts == map[]
    {
      |kpts|
    }

    /** Read access to the landmark stored under `lmId`; NotFound if there is none. */
    function GetLandmark(lmId: LandmarkId): (r: Result<Landmark>)
      reads this
      ensures r.Ok? <==> lmId in kpts
      ensures r.Err? ==> r.error == NotFound
      ensures r.Ok? ==> r.value == kpts[lmId]
      ensures Valid() && r.Ok? ==> r.value.id == lmId
    {
      if lmId in kpts then Ok(kpts[lmId]) else Err(NotFound)
    }

    /** The number of target views landmark `lmId` is observed in; NotFound if there is no such landmark. */
    function NumObservationsOf(lmId: LandmarkId): (r: Result<nat>)
      reads this
      ensures r.Ok? <==> lmId in kpts
      ensures r.Err? ==> r.error == NotFound
      ensures r.Ok? ==> r.value == |kpts[lmId].obs.Keys|
      ensures Valid() && r.Ok? ==> r.value == |EntriesOf(observations, lmId)|
    {
      EntriesOfLandmark(kpts, observations, lmId);
      if lmId in kpts then Ok(|kpts[lmId].obs|) else Err(NotFound)
    }

    /** Read access to the reverse index; in a valid database it lists every observation exactly once. */
    function GetObservations(): (idx: Index)
      reads this
      ensures Valid() ==> Entries(idx) == Observed(kpts)
    {
      EntriesAreObservations(kpts, observations);
      observations
    }

    /** Read access to the landmark map; every landmark is stored under its own id. */
    function GetLandmarks(): (m: LandmarkMap)
      reads this
      ensures Valid() ==> forall l :: l in m ==> m[l].id == l
      ensures m.Keys == kpts.Keys
    {
      kpts
    }

    /** The number of index entries under host `h`. */
    method NumObservationsOfHost(h: TimeCamId) returns (m: nat)
      requires h in observations
      ensures m == |EntriesOfTargets(observations, h, observations[h].Keys)|
    {
      var inner := observations[h];
      m := 0;
      var seen: set<TimeCamId> := {};
      var targets := inner.Keys;
      while targets != {}
        invariant targets !! seen && targets + seen == inner.Keys
        invariant m == |EntriesOfTargets(observations, h, seen)|
        decreases |targets|
      {
        NonEmptyViews(targets);
        var t :| t in targets;
        TargetStep(observations, h, seen, t);
        m := m + |inner[t]|;
        seen := seen + {t};
        targets := targets - {t};
      }
    }

    /** The total number of observations, counted on the reverse index. */
    method NumObservations() returns (n: nat)
      requires Valid()
      ensures n == |Observed(kpts)|
    {
      n := 0;
      var done: set<TimeCamId> := {};
      var hosts := observations.Keys;
      while hosts != {}
        invariant hosts !! done && hosts + done == observations.Keys
        invariant n == |EntriesOfHosts(observations, done)|
        decreases |hosts|
      {
        NonEmptyViews(hosts);
        var h :| h in hosts;
        var m := NumObservationsOfHost(h);
        HostStep(observations, done, h);
        n := n + m;
        done := done + {h};
        hosts := hosts - {h};
      }
      assert EntriesOfHosts(observations, done) == Entries(observations);
      EntriesAreObservations(kpts, observations);
    }

    /** The distinct views that host at least one landmark. */
    method GetHostKfs() returns (hosts: seq<TimeCamId>)
      ensures forall i, j :: 0 <= i < j < |hosts| ==> hosts[i] != hosts[j]
      ensures forall h :: h in hosts <==> exists l :: l in kpts && kpts[l].host_kf_id == h
    {
      hosts := [];
      var todo := kpts.Keys;
      while todo != {}
        invariant todo <= kpts.Keys
        invariant forall i, j :: 0 <= i < j < |hosts| ==> hosts[i] != hosts[j]
        invariant forall h :: h in hosts <==> exists l :: l in kpts && l !in todo && kpts[l].host_kf_id == h
        decreases |todo|
      {
        NonEmptyIds(todo);
        var l :| l in todo;
        if kpts[l].host_kf_id !in hosts {
          hosts := hosts + [kpts[l].host_kf_id];
        }
        todo := todo - {l};
      }
    }

    /** The landmarks hosted in `tcid`, each exactly once, paired with their ids. */
    method GetLandmarksForHostWithIds(tcid: TimeCamId) returns (r: seq<(LandmarkId, Landmark)>)
      ensures forall i :: 0 <= i < |r| ==> r[i].0 in kpts && kpts[r[i].0] == r[i].1 && r[i].1.host_kf_id == tcid
      ensures forall i, j :: 0 <= i < j < |r| ==> r[i].0 != r[j].0
      ensures forall l :: l in kpts && kpts[l].host_kf_id == tcid ==> (l, kpts[l]) in r
    {
      r := [];
      var todo := kpts.Keys;
      while todo != {}
        invariant todo <= kpts.Keys
        invariant forall i :: 0 <= i < |r| ==> r[i].0 in kpts && r[i].0 !in todo && kpts[r[i].0] == r[i].1 && r[i].1.host_kf_id == tcid
        invariant forall i, j :: 0 <= i < j < |r| ==> r[i].0 != r[j].0
        invariant forall l :: l in kpts && l !in todo && kpts[l].host_kf_id == tcid ==> (l, kpts[l]) in r
        decreases |todo|
      {
        NonEmptyIds(todo);
        var l :| l in todo;
        if kpts[l].host_kf_id == tcid {
          r := r + [(l, kpts[l])];
        }
        todo := todo - {l};
      }
    }

    /** The landmarks hosted in `tcid`, each exactly once. */
    method GetLandmarksForHost(tcid: TimeCamId) returns (r: seq<Landmark>)
      requires Valid()
      ensures forall i :: 0 <= i < |r| ==> r[i].id in kpts && kpts[r[i].id] == r[i] && r[i].host_kf_id == tcid
      ensures forall i, j :: 0 <= i < j < |r| ==> r[i].id != r[j].id
      ensures forall l :: l in kpts && kpts[l].host_kf_id == tcid ==> kpts[l] in r
    {
      r := [];
      var todo := kpts.Keys;
      while todo != {}
        invariant todo <= kpts.Keys
        invariant forall i :: 0 <= i < |r| ==> r[i].id in kpts && r[i].id !in todo && kpts[r[i].id] == r[i] && r[i].host_kf_id == tcid
        invariant forall i, j :: 0 <= i < j < |r| ==> r[i].id != r[j].id
        invariant forall l :: l in kpts && l !in todo && kpts[l].host_kf_id == tcid ==> kpts[l] in r
        decreases |todo|
      {
        NonEmptyIds(todo);
        var l :| l in todo;
        if kpts[l].host_kf_id == tcid {
          r := r + [kpts[l]];
        }
        todo := todo - {l};
      }
    }

    // ------------------------------------------------------------ insertion

    /** Inserts `lm` under a fresh id `lmId` and indexes its initial observations; DuplicateKey if the id is taken. */
    method AddLandmark(lmId: LandmarkId, lm: Landmark) returns (r: Outcome)
      requires Valid()
      modifies this
      ensures Valid()
      ensures r == if lmId in old(kpts) then Fail(DuplicateKey) else Pass
      ensures r.Fail? ==> kpts == old(kpts) && observations == old(observations)
      ensures r.Pass? ==> kpts == old(kpts)[lmId := lm.(id := lmId)]
      ensures r.Pass? ==> LandmarkExists(lmId) && NumLandmarks() == old(NumLandmarks()) + 1
      ensures r.Pass? ==> forall t :: t in lm.obs ==>
        lm.host_kf_id in observations && t in observations[lm.host_kf_id] && lmId in observations[lm.host_kf_id][t]
    {
      if lmId in kpts {
        return Fail(DuplicateKey);
      }
      var stored := lm.(id := lmId);
      ghost var indexed := kpts[lmId := stored.(obs := map[])];
      AddBareKeepsMirror(kpts, observations, lmId, stored.(obs := map[]));
      kpts := kpts[lmId := stored];
      var todo := stored.obs.Keys;
      assert stored.obs - todo == map[];
      while todo != {}
        invariant todo <= stored.obs.Keys
        invariant kpts == old(kpts)[lmId := stored]
        invariant indexed == old(kpts)[lmId := stored.(obs := stored.obs - todo)]
        invariant Mirrors(indexed, observations) && Pruned(observations)
        decreases |todo|
      {
        NonEmptyViews(todo);
        var t :| t in todo;
        InsertKeepsMirror(indexed, observations, lmId, t, stored.obs[t]);
        ObserveStep(old(kpts), lmId, stored, todo, t);
        observations := Insert(observations, stored.host_kf_id, t, lmId);
        indexed := Observe(indexed, lmId, t, stored.obs[t]);
        todo := todo - {t};
      }
      assert stored.obs - todo == stored.obs;
      return Pass;
    }

    /** Records that landmark `o.kpt_id` is seen at `o.pos` in view `target`; NotFound if there is no such landmark. */
    method AddObservation(target: TimeCamId, o: KeypointObservation) returns (r: Outcome)
      requires Valid()
      modifies this
      ensures Valid()
      ensures r == if o.kpt_id in old(kpts) then Pass else Fail(NotFound)
      ensures r.Fail? ==> kpts == old(kpts) && observations == old(observations)
      ensures r.Pass? ==> kpts == Observe(old(kpts), o.kpt_id, target, o.pos)
      ensures r.Pass? ==> var h := kpts[o.kpt_id].host_kf_id;
        h in observations && target in observations[h] && o.kpt_id in observations[h][target]
    {
      if o.kpt_id !in kpts {
        return Fail(NotFound);
      }
      var h := kpts[o.kpt_id].host_kf_id;
      InsertKeepsMirror(kpts, observations, o.kpt_id, target, o.pos);
      kpts := Observe(kpts, o.kpt_id, target, o.pos);
      observations := Insert(observations, h, target, o.kpt_id);
      return Pass;
    }

    // ------------------------------------------------------------ removal

    /** Erases one observation of a landmark on both sides. */
    method RemoveLandmarkObservationHelper(lmId: LandmarkId, t: TimeCamId)
      requires Valid() && lmId in kpts && t in kpts[lmId].obs
      modifies this
      ensures Valid()
      ensures kpts == Unobserve(old(kpts), lmId, t)
    {
      EraseKeepsMirror(kpts, observations, lmId, t);
      observations := Erase(observations, kpts[lmId].host_kf_id, t, lmId);
      kpts := Unobserve(kpts, lmId, t);
    }

    /** Erases a landmark and all of its index entries. */
    method RemoveLandmarkHelper(lmId: LandmarkId)
      requires Valid() && lmId in kpts
      modifies this
      ensures Valid()
      ensures kpts == old(kpts) - {lmId}
    {
      var lm := kpts[lmId];
      ghost var indexed := kpts;
      var todo := lm.obs.Keys;
      while todo != {}
        invariant kpts == old(kpts)
        invariant lmId in indexed && indexed - {lmId} == kpts - {lmId}
        invariant indexed[lmId] == lm.(obs := indexed[lmId].obs) && indexed[lmId].obs.Keys == todo
        invariant IdsConsistent(kpts) && Mirrors(indexed, observations) && Pruned(observations)
        decreases |todo|
      {
        NonEmptyViews(todo);
        var t :| t in todo;
        EraseKeepsMirror(indexed, observations, lmId, t);
        observations := Erase(observations, lm.host_kf_id, t, lmId);
        indexed := Unobserve(indexed, lmId, t);
        todo := todo - {t};
      }
      DropKeepsMirror(indexed, observations, lmId);
      kpts := kpts - {lmId};
    }

    /** Removes landmark `lmId` with all of its index entries; NotFound if there is no such landmark. */
    method RemoveLandmark(lmId: LandmarkId) returns (r: Outcome)
      requires Valid()
      modifies this
      ensures Valid()
      ensures r == if lmId in old(kpts) then Pass else Fail(NotFound)
      ensures r.Fail? ==> kpts == old(kpts) && observations == old(observations)
      ensures r.Pass? ==> kpts == old(kpts) - {lmId}
      ensures !LandmarkExists(lmId)
      ensures forall h, t :: h in observations && t in observations[h] ==> lmId !in observations[h][t]
    {
      if lmId !in kpts {
        return Fail(NotFound);
      }
      RemoveLandmarkHelper(lmId);
      return Pass;
    }

    /** Erases the observations of landmark `lmId` in the views `targets`, without the cascade. */
    method EraseObservations(lmId: LandmarkId, targets: set<TimeCamId>)
      requires Valid() && lmId in kpts
      modifies this
      ensures Valid()
      ensures kpts == old(kpts)[lmId := old(kpts)[lmId].(obs := old(kpts)[lmId].obs - targets)]
    {
      var lm := kpts[lmId];
      var todo, done := targets, {};
      assert lm.obs - done == lm.obs;
      assert kpts == kpts[lmId := lm];
      while todo != {}
        invariant todo + done == targets
        invariant Valid() && lmId in kpts
        invariant kpts == old(kpts)[lmId := lm.(obs := lm.obs - done)]
        decreases |todo|
      {
        NonEmptyViews(todo);
        var t :| t in todo;
        UnobserveStep(old(kpts), lmId, lm, done, t);
        if t in kpts[lmId].obs {
          RemoveLandmarkObservationHelper(lmId, t);
        }
        todo, done := todo - {t}, done + {t};
      }
    }

    /**
     Erases the observations of landmark `lmId` in the views `targets`; the
     landmark is removed altogether when fewer than MinNumObs observations
     remain. NotFound if there is no such landmark.
     */
    method RemoveObservations(lmId: LandmarkId, targets: set<TimeCamId>) returns (r: Outcome)
      requires Valid()
      modifies this
      ensures Valid()
      ensures r == if lmId in old(kpts) then Pass else Fail(NotFound)
      ensures r.Fail? ==> kpts == old(kpts) && observations == old(observations)
      ensures r.Pass? ==> kpts == WithoutObservations(old(kpts), lmId, targets)
    {
      if lmId !in kpts {
        return Fail(NotFound);
      }
      EraseObservations(lmId, targets);
      if |kpts[lmId].obs| < MinNumObs {
        RemoveLandmarkHelper(lmId);
      }
      return Pass;
    }

    /** Applies a window slide to landmark `lmId` alone. */
    method TrimLandmark(lmId: LandmarkId, dropHosts: set<FrameId>, dropTargets: set<FrameId>)
      requires Valid() && lmId in kpts
      modifies this
      ensures Valid()
      ensures kpts == TrimAt(old(kpts), lmId, dropHosts, dropTargets)
    {
      var lm := kpts[lmId];
      if lm.host_kf_id.frame_id in dropHosts {
        RemoveLandmarkHelper(lmId);
        return;
      }
      var todo := lm.obs.Keys;
      assert PartlyKept(lm.obs, todo, dropTargets) == lm.obs;
      assert kpts == kpts[lmId := lm];
      while todo != {}
        invariant todo <= lm.obs.Keys
        invariant Valid() && lmId in kpts
        invariant kpts == old(kpts)[lmId := lm.(obs := PartlyKept(lm.obs, todo, dropTargets))]
        decreases |todo|
      {
        NonEmptyViews(todo);
        var t :| t in todo;
        KeptStep(old(kpts), lmId, lm, todo, t, dropTargets);
        if t.frame_id in dropTargets {
          RemoveLandmarkObservationHelper(lmId, t);
        }
        todo := todo - {t};
      }
      assert PartlyKept(lm.obs, {}, dropTargets) == Kept(lm.obs, dropTargets);
      if |kpts[lmId].obs| < MinNumObs {
        RemoveLandmarkHelper(lmId);
      }
    }

    /** Applies a window slide to every landmark. */
    method SlideWindow(dropHosts: set<FrameId>, dropTargets: set<FrameId>)
      requires Valid()
      modifies this
      ensures Valid()
      ensures kpts == Slide(old(kpts), dropHosts, dropTargets)
    {
      PartlySlidEnds(kpts, dropHosts, dropTargets);
      var todo := kpts.Keys;
      while todo != {}
        invariant todo <= old(kpts).Keys
        invariant Valid()
        invariant kpts == PartlySlid(old(kpts), todo, dropHosts, dropTargets)
        decreases |todo|
      {
        NonEmptyIds(todo);
        var l :| l in todo;
        PartlySlidStep(old(kpts), todo, l, dropHosts, dropTargets);
        TrimLandmark(l, dropHosts, dropTargets);
        todo := todo - {l};
      }
    }

    /**
     Removes every observation whose target lies in `frame`, removes every
     landmark hosted in `frame`, and removes every landmark left with fewer
     than MinNumObs observations.
     */
    method RemoveFrame(frame: FrameId)
      requires Valid()
      modifies this
      ensures Valid()
      ensures kpts == RemoveFrameSpec(old(kpts), frame)
      ensures forall l :: l in kpts ==> kpts[l].host_kf_id.frame_id != frame
      ensures forall l, t :: l in kpts && t in kpts[l].obs ==> t.frame_id != frame
      ensures forall h :: h in observations ==> h.frame_id != frame
    {
      SlideWindow({frame}, {frame});
      SlideGuarantees(old(kpts), {frame}, {frame});
      forall h: TimeCamId | h.frame_id == frame ensures h !in observations {
        NoHostNoEntry(kpts, observations, h);
      }
    }

    /**
     The window-slide entry point: removes every landmark hosted in a frame
     of `kfsToMarg`, removes every observation whose target frame lies in any
     of the three sets, and removes every landmark left with fewer than
     MinNumObs observations.
     */
    method RemoveKeyframes(kfsToMarg: set<FrameId>, posesToMarg: set<FrameId>, statesToMargAll: set<FrameId>)
      requires Valid()
      modifies this
      ensures Valid()
      ensures kpts == RemoveKeyframesSpec(old(kpts), kfsToMarg, posesToMarg, statesToMargAll)
      ensures forall l :: l in kpts ==> kpts[l].host_kf_id.frame_id !in kfsToMarg
      ensures forall l, t :: l in kpts && t in kpts[l].obs ==>
        t.frame_id !in kfsToMarg && t.frame_id !in posesToMarg && t.frame_id !in statesToMargAll
      ensures forall l :: l in kpts ==> |kpts[l].obs| >= MinNumObs
      ensures forall h :: h in observations ==> h.frame_id !in kfsToMarg
    {
      SlideWindow(kfsToMarg, kfsToMarg + posesToMarg + statesToMargAll);
      SlideGuarantees(old(kpts), kfsToMarg, kfsToMarg + posesToMarg + statesToMargAll);
      forall h: TimeCamId | h.frame_id in kfsToMarg ensures h !in observations {
        NoHostNoEntry(kpts, observations, h);
      }
    }

    // ------------------------------------------------------------ maintenance

    /** Empties the database. */
    method Clear()
      modifies this
      ensures Valid()
      ensures kpts == map[] && observations == map[]
      ensures NumLandmarks() == 0 && |Observed(kpts)| == 0
    {
      kpts := map[];
      observations := map[];
    }

    /** Snapshots the 3D position parameters of every landmark. */
    method Backup()
      requires Valid()
      modifies this
      ensures Valid()
      ensures kpts == BackupAll(old(kpts)) && observations == old(observations)
    {
      var todo := kpts.Keys;
      while todo != {}
        invariant todo <= old(kpts).Keys
        invariant kpts == map l | l in old(kpts) :: if l in todo then old(kpts)[l] else old(kpts)[l].Backup()
        invariant observations == old(observations)
        decreases |todo|
      {
        NonEmptyIds(todo);
        var l :| l in todo;
        kpts := kpts[l := kpts[l].Backup()];
        todo := todo - {l};
      }
      BackupRestoreKeepMirror(old(kpts), observations);
    }

    /** Rolls the 3D position parameters of every landmark back to its snapshot. */
    method Restore()
      requires Valid()
      modifies this
      ensures Valid()
      ensures kpts == RestoreAll(old(kpts)) && observations == old(observations)
    {
      var todo := kpts.Keys;
      while todo != {}
        invariant todo <= old(kpts).Keys
        invariant kpts == map l | l in old(kpts) :: if l in todo then old(kpts)[l] else old(kpts)[l].Restore()
        invariant observations == old(observations)
        decreases |todo|
      {
        NonEmptyIds(todo);
        var l :| l in todo;
        kpts := kpts[l := kpts[l].Restore()];
        todo := todo - {l};
      }
      BackupRestoreKeepMirror(old(kpts), observations);
    }
  }
}

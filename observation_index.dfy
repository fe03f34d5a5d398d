/**
 The reverse observation index (host view -> target view -> set of landmark
 ids) as a value, the invariants that tie it to the landmark map, and the
 two elementary index updates with proofs that they keep those invariants.
 */
module ObservationIndex {
  import opened Landmarks

  type LandmarkMap = map<LandmarkId, Landmark>
  type Index = map<TimeCamId, map<TimeCamId, set<LandmarkId>>>

  /** Every landmark is stored under its own id. */
  ghost predicate IdsConsistent(kpts: LandmarkMap) {
    forall l :: l in kpts ==> kpts[l].id == l
  }

  /** Every id in the index names a landmark with that host that observes that target. */
  ghost predicate Sound(kpts: LandmarkMap, idx: Index) {
    forall h, t, l :: h in idx && t in idx[h] && l in idx[h][t] ==>
      l in kpts && kpts[l].host_kf_id == h && t in kpts[l].obs
  }

  /** Every observation of every landmark is recorded in the index. */
  ghost predicate Complete(kpts: LandmarkMap, idx: Index) {
    forall l, t :: l in kpts && t in kpts[l].obs ==>
      kpts[l].host_kf_id in idx && t in idx[kpts[l].host_kf_id] && l in idx[kpts[l].host_kf_id][t]
  }

  /** The forward observation maps and the reverse index mirror each other. */
  ghost predicate Mirrors(kpts: LandmarkMap, idx: Index) {
    Sound(kpts, idx) && Complete(kpts, idx)
  }

  /** No empty inner map and no empty id set is left in the index. */
  ghost predicate Pruned(idx: Index) {
    && (forall h :: h in idx ==> idx[h] != map[])
    && (forall h, t :: h in idx && t in idx[h] ==> idx[h][t] != {})
  }

  /** Records that landmark `l`, hosted in `h`, is observed in `t`. */
  function Insert(idx: Index, h: TimeCamId, t: TimeCamId, l: LandmarkId): Index {
    var inner := if h in idx then idx[h] else map[];
    var ids := if t in inner then inner[t] else {};
    idx[h := inner[t := ids + {l}]]
  }

  /** Forgets that landmark `l`, hosted in `h`, is observed in `t`, pruning emptied containers. */
  function Erase(idx: Index, h: TimeCamId, t: TimeCamId, l: LandmarkId): Index {
    if h !in idx || t !in idx[h] then idx
    else
      var ids := idx[h][t] - {l};
      var inner := if ids == {} then idx[h] - {t} else idx[h][t := ids];
      if inner == map[] then idx - {h} else idx[h := inner]
  }

  /** The landmark map with observation `t -> p` recorded on landmark `l`. */
  function Observe(kpts: LandmarkMap, l: LandmarkId, t: TimeCamId, p: Vec2): LandmarkMap
    requires l in kpts
  {
    kpts[l := kpts[l].(obs := kpts[l].obs[t := p])]
  }

  /** The landmark map with target `t` dropped from landmark `l`'s observations. */
  function Unobserve(kpts: LandmarkMap, l: LandmarkId, t: TimeCamId): LandmarkMap
    requires l in kpts
  {
    kpts[l := kpts[l].(obs := kpts[l].obs - {t})]
  }

  /** Recording an observation on both sides keeps the two sides mirrored and the index pruned. */
  lemma InsertKeepsMirror(kpts: LandmarkMap, idx: Index, l: LandmarkId, t: TimeCamId, p: Vec2)
    requires Mirrors(kpts, idx) && Pruned(idx) && l in kpts
    ensures Mirrors(Observe(kpts, l, t, p), Insert(idx, kpts[l].host_kf_id, t, l))
    ensures Pruned(Insert(idx, kpts[l].host_kf_id, t, l))
  {
    var k2 := Observe(kpts, l, t, p);
    var i2 := Insert(idx, kpts[l].host_kf_id, t, l);
    forall h, t', l' | h in i2 && t' in i2[h] && l' in i2[h][t']
      ensures l' in k2 && k2[l'].host_kf_id == h && t' in k2[l'].obs
    {
      if !(h in idx && t' in idx[h] && l' in idx[h][t']) {
        assert h == kpts[l].host_kf_id && t' == t && l' == l;
      }
    }
  }

  /** Forgetting an observation on both sides keeps the two sides mirrored and the index pruned. */
  lemma EraseKeepsMirror(kpts: LandmarkMap, idx: Index, l: LandmarkId, t: TimeCamId)
    requires Mirrors(kpts, idx) && Pruned(idx) && l in kpts && t in kpts[l].obs
    ensures Mirrors(Unobserve(kpts, l, t), Erase(idx, kpts[l].host_kf_id, t, l))
    ensures Pruned(Erase(idx, kpts[l].host_kf_id, t, l))
  {
    var h := kpts[l].host_kf_id;
    var k2 := Unobserve(kpts, l, t);
    var i2 := Erase(idx, h, t, l);
    forall l', t' | l' in k2 && t' in k2[l'].obs
      ensures k2[l'].host_kf_id in i2 && t' in i2[k2[l'].host_kf_id] && l' in i2[k2[l'].host_kf_id][t']
    {
      assert t' in kpts[l'].obs;
      if kpts[l'].host_kf_id == h {
        var ids := idx[h][t] - {l};
        var inner := if ids == {} then idx[h] - {t} else idx[h][t := ids];
        if t' == t {
          assert l' != l && l' in ids;
        } else {
          assert t' in inner;
        }
        assert t' in inner && l' in inner[t'];
      }
    }
  }

  /** A landmark without observations has no index entries, so it can be dropped from the map alone. */
  lemma DropKeepsMirror(kpts: LandmarkMap, idx: Index, l: LandmarkId)
    requires Mirrors(kpts, idx) && l in kpts && kpts[l].obs == map[]
    ensures Mirrors(kpts - {l}, idx)
  {
  }

  /** A landmark that has no observations yet can be added to the map alone. */
  lemma AddBareKeepsMirror(kpts: LandmarkMap, idx: Index, l: LandmarkId, lm: Landmark)
    requires Mirrors(kpts, idx) && l !in kpts && lm.obs == map[]
    ensures Mirrors(kpts[l := lm], idx)
  {
  }

  /** The mirror and pruning invariants determine the index from the landmark map. */
  lemma {:induction false} IndexDetermined(kpts: LandmarkMap, i1: Index, i2: Index)
    requires Mirrors(kpts, i1) && Pruned(i1)
    requires Mirrors(kpts, i2) && Pruned(i2)
    ensures i1 == i2
  {
    forall h | h in i1 ensures h in i2 && i1[h] == i2[h] {
      SameHost(kpts, i1, i2, h);
    }
    forall h | h in i2 ensures h in i1 {
      SameHost(kpts, i2, i1, h);
    }
  }

  lemma SameHost(kpts: LandmarkMap, i1: Index, i2: Index, h: TimeCamId)
    requires Mirrors(kpts, i1) && Pruned(i1)
    requires Mirrors(kpts, i2) && Pruned(i2)
    requires h in i1
    ensures h in i2 && i1[h] == i2[h]
  {
    var t :| t in i1[h];
    var l := SomeId(i1[h][t]);
    assert kpts[l].host_kf_id == h && t in kpts[l].obs;
    forall t' | t' in i1[h] ensures t' in i2[h] && i1[h][t'] == i2[h][t'] {
      var l' := SomeId(i1[h][t']);
      assert kpts[l'].host_kf_id == h && t' in kpts[l'].obs;
      forall l'' | l'' in i1[h][t'] ensures l'' in i2[h][t'] {
        assert kpts[l''].host_kf_id == h && t' in kpts[l''].obs;
      }
      forall l'' | l'' in i2[h][t'] ensures l'' in i1[h][t'] {
        assert kpts[l''].host_kf_id == h && t' in kpts[l''].obs;
      }
    }
    forall t' | t' in i2[h] ensures t' in i1[h] {
      var l' := SomeId(i2[h][t']);
      assert kpts[l'].host_kf_id == h && t' in kpts[l'].obs;
    }
  }

  /** A non-empty set of views has an element. */
  lemma NonEmptyViews(s: set<TimeCamId>)
    requires s != {}
    ensures exists x :: x in s
  {
    if forall x :: x !in s {
      assert false;
    }
  }

  /** A non-empty set of landmark ids has an element. */
  lemma NonEmptyIds(s: set<LandmarkId>)
    requires s != {}
    ensures exists x :: x in s
  {
    if forall x :: x !in s {
      assert false;
    }
  }

  /** Picks an element of a non-empty id set. */
  lemma SomeId(ids: set<LandmarkId>) returns (l: LandmarkId)
    requires ids != {}
    ensures l in ids
  {
    NonEmptyIds(ids);
    l :| l in ids;
  }

  /** Every host key of a mirrored, pruned index is the host of some indexed landmark. */
  lemma HostedWitness(kpts: LandmarkMap, idx: Index, h: TimeCamId) returns (l: LandmarkId)
    requires Mirrors(kpts, idx) && Pruned(idx) && h in idx
    ensures l in kpts && kpts[l].host_kf_id == h && kpts[l].obs != map[]
  {
    var t :| t in idx[h];
    l := SomeId(idx[h][t]);
    assert t in kpts[l].obs;
  }

  /** If no landmark is hosted in `h`, the index holds no entry for `h`. */
  lemma {:induction false} NoHostNoEntry(kpts: LandmarkMap, idx: Index, h: TimeCamId)
    requires Mirrors(kpts, idx) && Pruned(idx)
    requires forall l :: l in kpts ==> kpts[l].host_kf_id != h
    ensures h !in idx
  {
    if h in idx {
      var l := HostedWitness(kpts, idx, h);
      assert false;
    }
  }

  /** If landmark `l` is gone from the map, no id set of the index contains it. */
  lemma {:induction false} NoDanglingId(kpts: LandmarkMap, idx: Index, l: LandmarkId)
    ensures Sound(kpts, idx) && l !in kpts ==> forall h, t :: h in idx && t in idx[h] ==> l !in idx[h][t]
  {
  }

  // ---------------------------------------------------------------- counting

  type Entry = (TimeCamId, TimeCamId, LandmarkId)

  /** The (host, target, landmark) entries of the index. */
  ghost function Entries(idx: Index): set<Entry> {
    set h, t, l | h in idx && t in idx[h] && l in idx[h][t] :: (h, t, l)
  }

  /** One (host, target, landmark) record per observation of every landmark. */
  ghost function Observed(kpts: LandmarkMap): set<Entry> {
    set l, t | l in kpts && t in kpts[l].obs :: (kpts[l].host_kf_id, t, l)
  }

  /** The entries of the index whose host lies in `hosts`. */
  ghost function EntriesOfHosts(idx: Index, hosts: set<TimeCamId>): set<Entry> {
    set h, t, l | h in idx && h in hosts && t in idx[h] && l in idx[h][t] :: (h, t, l)
  }

  /** The entries of the index under host `h` whose target lies in `targets`. */
  ghost function EntriesOfTargets(idx: Index, h: TimeCamId, targets: set<TimeCamId>): set<Entry>
    requires h in idx
  {
    set t, l | t in idx[h] && t in targets && l in idx[h][t] :: (h, t, l)
  }

  /** The entries for one id set of the index. */
  ghost function Tagged(h: TimeCamId, t: TimeCamId, ids: set<LandmarkId>): set<Entry> {
    set l | l in ids :: (h, t, l)
  }

  /** A mirrored index holds exactly one entry per observation. */
  lemma EntriesAreObservations(kpts: LandmarkMap, idx: Index)
    ensures Mirrors(kpts, idx) ==> Entries(idx) == Observed(kpts)
  {
    if Mirrors(kpts, idx) {
      forall e | e in Observed(kpts) ensures e in Entries(idx) {
        var l, t :| l in kpts && t in kpts[l].obs && e == (kpts[l].host_kf_id, t, l);
      }
      forall e | e in Entries(idx) ensures e in Observed(kpts) {
        var h, t, l :| h in idx && t in idx[h] && l in idx[h][t] && e == (h, t, l);
        assert l in kpts && t in kpts[l].obs && e == (kpts[l].host_kf_id, t, l);
      }
    }
  }

  lemma {:induction false} TaggedSize(h: TimeCamId, t: TimeCamId, ids: set<LandmarkId>)
    ensures |Tagged(h, t, ids)| == |ids|
    decreases |ids|
  {
    if ids != {} {
      var l := SomeId(ids);
      TaggedSize(h, t, ids - {l});
      assert Tagged(h, t, ids) == Tagged(h, t, ids - {l}) + {(h, t, l)};
    }
  }

  /** Counting the id set of one more target adds exactly its size. */
  lemma TargetStep(idx: Index, h: TimeCamId, targets: set<TimeCamId>, t: TimeCamId)
    requires h in idx && t in idx[h] && t !in targets
    ensures |EntriesOfTargets(idx, h, targets + {t})| == |EntriesOfTargets(idx, h, targets)| + |idx[h][t]|
  {
    var before := EntriesOfTargets(idx, h, targets);
    var more := Tagged(h, t, idx[h][t]);
    assert EntriesOfTargets(idx, h, targets + {t}) == before + more;
    assert before * more == {};
    TaggedSize(h, t, idx[h][t]);
  }

  /** Counting one more host adds exactly the entries under it. */
  lemma HostStep(idx: Index, hosts: set<TimeCamId>, h: TimeCamId)
    requires h in idx && h !in hosts
    ensures |EntriesOfHosts(idx, hosts + {h})| == |EntriesOfHosts(idx, hosts)| + |EntriesOfTargets(idx, h, idx[h].Keys)|
  {
    var before := EntriesOfHosts(idx, hosts);
    var more := EntriesOfTargets(idx, h, idx[h].Keys);
    assert EntriesOfHosts(idx, hosts + {h}) == before + more;
    assert before * more == {};
  }

  /** The entries of the index that name landmark `l`. */
  ghost function EntriesOf(idx: Index, l: LandmarkId): set<Entry> {
    set h, t | h in idx && t in idx[h] && l in idx[h][t] :: (h, t, l)
  }

  /** One entry for landmark `l`, hosted in `h`, per target view in `ts`. */
  ghost function Targeted(h: TimeCamId, ts: set<TimeCamId>, l: LandmarkId): set<Entry> {
    set t | t in ts :: (h, t, l)
  }

  lemma {:induction false} TargetedSize(h: TimeCamId, ts: set<TimeCamId>, l: LandmarkId)
    ensures |Targeted(h, ts, l)| == |ts|
    decreases |ts|
  {
    if ts != {} {
      NonEmptyViews(ts);
      var t :| t in ts;
      TargetedSize(h, ts - {t}, l);
      assert Targeted(h, ts, l) == Targeted(h, ts - {t}, l) + {(h, t, l)};
    }
  }

  /** In a mirrored index a landmark has exactly one entry per target view it is observed in. */
  lemma {:induction false} EntriesOfLandmark(kpts: LandmarkMap, idx: Index, l: LandmarkId)
    ensures Mirrors(kpts, idx) && l in kpts ==> |EntriesOf(idx, l)| == |kpts[l].obs.Keys|
  {
    if Mirrors(kpts, idx) && l in kpts {
      var host := kpts[l].host_kf_id;
      forall e | e in EntriesOf(idx, l) ensures e in Targeted(host, kpts[l].obs.Keys, l) {
        var h, t :| h in idx && t in idx[h] && l in idx[h][t] && e == (h, t, l);
        assert kpts[l].host_kf_id == h && t in kpts[l].obs;
      }
      forall e | e in Targeted(host, kpts[l].obs.Keys, l) ensures e in EntriesOf(idx, l) {
        var t :| t in kpts[l].obs.Keys && e == (host, t, l);
        assert host in idx && t in idx[host] && l in idx[host][t];
      }
      assert EntriesOf(idx, l) == Targeted(host, kpts[l].obs.Keys, l);
      TargetedSize(host, kpts[l].obs.Keys, l);
    }
  }
}

/**
 Identifiers, keypoint observations and the landmark record of the
 visual-inertial estimator, with its parameter snapshot for rollback.
 */
module Landmarks {

  /** Time stamp of a sensor sample; totally ordered. */
  type FrameId = int

  /** Identifier of a 3D point, unique for its lifetime. */
  type LandmarkId = int

  /** One imaged view: a frame together with the camera that took it. */
  datatype TimeCamId = TimeCamId(frame_id: FrameId, cam_id: nat)

  /** A 2D vector; only copied, never computed on, by the database. */
  datatype Vec2 = Vec2(x: real, y: real)

  /** One detected projection of landmark `kpt_id` at image position `pos`. */
  datatype KeypointObservation = KeypointObservation(kpt_id: LandmarkId, pos: Vec2)

  /**
   A point parameterized relative to its host view by a bearing `direction`
   and an inverse distance `inv_dist`; `obs` maps every target view in which
   it was observed to the 2D position there. The last two fields are the
   private snapshot that `Backup` writes and `Restore` reads.
   */
  datatype Landmark = Landmark(
    direction: Vec2,
    inv_dist: real,
    host_kf_id: TimeCamId,
    obs: map<TimeCamId, Vec2>,
    id: LandmarkId,
    backup_direction: Vec2,
    backup_inv_dist: real)
  {
    /** Copies the 3D position parameters into the snapshot. */
    function Backup(): Landmark {
      this.(backup_direction := direction, backup_inv_dist := inv_dist)
    }

    /** Overwrites the 3D position parameters with the snapshot. */
    function Restore(): Landmark {
      this.(direction := backup_direction, inv_dist := backup_inv_dist)
    }

    /** The landmark with other 3D position parameters, as an optimizer step writes them. */
    function WithParameters(d: Vec2, v: real): Landmark {
      this.(direction := d, inv_dist := v)
    }
  }

  /** Backup, any change of the parameters, then restore gives back the backed-up landmark. */
  lemma RestoreUndoesParameterChange(lm: Landmark, d: Vec2, v: real)
    ensures lm.Backup().WithParameters(d, v).Restore() == lm.Backup()
    ensures lm.Backup().WithParameters(d, v).Restore().direction == lm.direction
    ensures lm.Backup().WithParameters(d, v).Restore().inv_dist == lm.inv_dist
  {
  }

  /** Restore touches the parameters only: host, observations and id stay. */
  lemma RestoreKeepsStructure(lm: Landmark)
    ensures lm.Restore().host_kf_id == lm.host_kf_id
    ensures lm.Restore().obs == lm.obs
    ensures lm.Restore().id == lm.id
    ensures lm.Restore().backup_direction == lm.backup_direction
    ensures lm.Restore().backup_inv_dist == lm.backup_inv_dist
  {
  }

  /** Backup changes only the snapshot, and a repeated backup overwrites it with the same values. */
  lemma BackupKeepsLandmark(lm: Landmark)
    ensures lm.Backup().direction == lm.direction && lm.Backup().inv_dist == lm.inv_dist
    ensures lm.Backup().host_kf_id == lm.host_kf_id && lm.Backup().obs == lm.obs
    ensures lm.Backup().id == lm.id
    ensures lm.Backup().Backup() == lm.Backup()
    ensures lm.Backup().Restore() == lm.Backup()
  {
  }
}

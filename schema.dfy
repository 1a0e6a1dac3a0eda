/** The record shapes of shared/schema.ts: the stored credentials row, the charging schedule row,
    the payloads used to insert and to patch them, and the vehicle status handed to the browser. */
module Schema {
  import opened Wrappers

  /** A JavaScript number that is only passed through, never computed on: its IEEE 754 bit pattern. */
  type Float64 = bv64

  /** The `tesla_credentials` row. `expiresAt` is a timestamp in milliseconds since the epoch. */
  datatype TeslaCredentials = TeslaCredentials(id: int, accessToken: string, refreshToken: string, expiresAt: int)

  /** The credentials payload. The insert schema is built from the whole table, so the
      generated `id` is an optional key of it (`None` when the payload does not carry one). */
  datatype InsertCredentials = InsertCredentials(id: Option<int>, accessToken: string, refreshToken: string, expiresAt: int)

  /** The `charging_schedules` row. Times are free text (the "HH:mm" format is not checked anywhere),
      `targetPercentage` is any integer and `enabled` is an integer flag. */
  datatype ChargingSchedule = ChargingSchedule(
    id: int,
    startTime: string,
    endTime: string,
    targetPercentage: int,
    enabled: int)

  /** The schedule payload of a create: every column but `id`. */
  datatype InsertSchedule = InsertSchedule(startTime: string, endTime: string, targetPercentage: int, enabled: int)

  /** `Partial<InsertSchedule>`: `None` is a key the patch does not carry. */
  datatype SchedulePatch = SchedulePatch(
    startTime: Option<string>,
    endTime: Option<string>,
    targetPercentage: Option<int>,
    enabled: Option<int>)

  /** The status shown in the browser, in the application's own field names. */
  datatype VehicleStatus = VehicleStatus(batteryLevel: int, chargingState: string, timeToFullCharge: Float64, chargeLimit: int)

  /** `{ id, ...schedule }`: the payload's columns under the given id. */
  function WithId(id: int, s: InsertSchedule): (r: ChargingSchedule)
    ensures r.id == id
    ensures Payload(r) == s
  {
    ChargingSchedule(id, s.startTime, s.endTime, s.targetPercentage, s.enabled)
  }

  /** The columns of a row other than its id. */
  function Payload(r: ChargingSchedule): InsertSchedule {
    InsertSchedule(r.startTime, r.endTime, r.targetPercentage, r.enabled)
  }

  /** `{ ...existing, ...patch }`: every key the patch carries overrides, every other key, `id`
      included, is the existing one. */
  function Merge(existing: ChargingSchedule, patch: SchedulePatch): ChargingSchedule {
    ChargingSchedule(
      existing.id,
      patch.startTime.GetOr(existing.startTime),
      patch.endTime.GetOr(existing.endTime),
      patch.targetPercentage.GetOr(existing.targetPercentage),
      patch.enabled.GetOr(existing.enabled))
  }

  /** The patch that carries no key. */
  const EMPTY_PATCH := SchedulePatch(None, None, None, None)

  /** The patch that carries every key of `s`. */
  function FullPatch(s: InsertSchedule): SchedulePatch {
    SchedulePatch(Some(s.startTime), Some(s.endTime), Some(s.targetPercentage), Some(s.enabled))
  }

  /** Applying `p` and then `q` is applying one patch in which `q`'s keys win over `p`'s
      (the spread of a spread). */
  function Then(p: SchedulePatch, q: SchedulePatch): SchedulePatch {
    SchedulePatch(
      if q.startTime.Some? then q.startTime else p.startTime,
      if q.endTime.Some? then q.endTime else p.endTime,
      if q.targetPercentage.Some? then q.targetPercentage else p.targetPercentage,
      if q.enabled.Some? then q.enabled else p.enabled)
  }

  /** A merge never changes the id; an empty patch changes nothing; a full patch replaces every
      column; and a patch carrying a key sets that column to the patch's value. */
  lemma MergeFields(existing: ChargingSchedule, patch: SchedulePatch)
    ensures Merge(existing, patch).id == existing.id
    ensures Merge(existing, EMPTY_PATCH) == existing
    ensures forall s :: Merge(existing, FullPatch(s)) == WithId(existing.id, s)
    ensures patch.startTime.Some? ==> Merge(existing, patch).startTime == patch.startTime.value
    ensures patch.startTime.None? ==> Merge(existing, patch).startTime == existing.startTime
    ensures patch.endTime.Some? ==> Merge(existing, patch).endTime == patch.endTime.value
    ensures patch.endTime.None? ==> Merge(existing, patch).endTime == existing.endTime
    ensures patch.targetPercentage.Some? ==> Merge(existing, patch).targetPercentage == patch.targetPercentage.value
    ensures patch.targetPercentage.None? ==> Merge(existing, patch).targetPercentage == existing.targetPercentage
    ensures patch.enabled.Some? ==> Merge(existing, patch).enabled == patch.enabled.value
    ensures patch.enabled.None? ==> Merge(existing, patch).enabled == existing.enabled
  {
  }

  /** Two successive patches compose into one, and repeating a patch changes nothing more. */
  lemma MergeCompose(existing: ChargingSchedule, p: SchedulePatch, q: SchedulePatch)
    ensures Merge(Merge(existing, p), q) == Merge(existing, Then(p, q))
    ensures Merge(Merge(existing, p), p) == Merge(existing, p)
  {
  }
}

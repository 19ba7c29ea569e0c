/** The addon records the addon table returns, as both listing endpoints
    read them. */
module AddonRecords {
  import opened Json

  /** An addon record: a string `addonId`, and a `configSchema` that is JSON
      text or null when present. */
  predicate IsAddonRecord(o: Obj) {
    "addonId" in o && o["addonId"].JStr? &&
    ("configSchema" in o ==> o["configSchema"].JStr? || o["configSchema"].JNull?)
  }

  function AddonIdOf(o: Obj): string {
    if "addonId" in o && o["addonId"].JStr? then o["addonId"].s else ""
  }

  /** The sort key of a record: the timestamp of its addon id. */
  function TimestampKey(timestampOf: string -> int): Obj -> int {
    o => timestampOf(AddonIdOf(o))
  }
}

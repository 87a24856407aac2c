/** The value types of the metrics monitor (internal/monitor/types.go). */
module MonitorTypes {
  import opened Wrappers

  /** Instants and durations in nanoseconds; an Option holds Go's zero time as None. */
  type Time = int

  datatype Domain = Domain(
    claimUID: string,
    pool: string,
    device: string,
    uuid: string,
    generation: nat,
    physicalID: int,
    memoryLimit: nat,
    supported: bool)

  datatype DeviceRef = DeviceRef(pool: string, device: string)

  datatype Consumer = Consumer(namespace: string, pod: string, container: string, devices: set<DeviceRef>)

  datatype HostDevice = HostDevice(
    logicalID: int,
    physicalID: int,
    uuid: string,
    deviceType: string,
    memoryUsed: nat,
    utilization: real,
    memoryValid: bool,
    utilValid: bool)

  /** `now - at` is at most `maxAge`; Go's difference from the zero time saturates far above any age. */
  predicate Within(now: Time, at: Option<Time>, maxAge: Time) {
    at.Some? && now - at.value <= maxAge
  }
}

/** The wire format shared by the gateway and the clients (backend/src/realtime/wire.ts). */
module Wire {
  import opened Wrappers

  type MemberId = string
  type ConvoyId = string
  type HazardId = string

  /** Instants and durations, in milliseconds. */
  type Millis = int

  datatype HazardType =
    | Construction | Accident | TrafficJam | BrokenDownVehicle | Obstacle
    | PoorVisibility | SlipperyRoad | PoliceCheckpoint | Sos | Other

  datatype StatusKind = Pause | FuelStop | BackInConvoy | VehicleProblem

  datatype Gps = Gps(
    memberId: MemberId, latitude: real, longitude: real,
    heading: real, speed: real, timestamp: Millis)

  datatype Waypoint = Waypoint(
    latitude: real, longitude: real, name: string, setBy: MemberId, setAt: Millis)

  datatype Hazard = Hazard(
    id: HazardId, kind: HazardType, latitude: real, longitude: real,
    reporterId: MemberId, createdAt: Millis,
    description: Option<string>, expiresAt: Option<Millis>)

  datatype Tour = Tour(stops: seq<Waypoint>)

  datatype CheckIn = CheckIn(memberId: MemberId, stopSignature: string, arrivedAt: Millis)

  datatype Status = Status(memberId: MemberId, kind: StatusKind, at: Millis)

  datatype Frame =
    | GpsFrame(gps: Gps)
    | WaypointFrame(waypoint: Option<Waypoint>)
    | HazardFrame(hazard: Hazard)
    | HazardRemoveFrame(hazardId: HazardId)
    | TourFrame(tour: Tour)
    | CheckInFrame(checkIn: CheckIn)
    | StatusFrame(status: Status)

  /** The member a payload claims to come from; None for the three frames without such a field. */
  function OriginatorOf(frame: Frame): Option<MemberId> {
    match frame
    case GpsFrame(gps) => Some(gps.memberId)
    case WaypointFrame(Some(waypoint)) => Some(waypoint.setBy)
    case HazardFrame(hazard) => Some(hazard.reporterId)
    case CheckInFrame(checkIn) => Some(checkIn.memberId)
    case StatusFrame(status) => Some(status.memberId)
    case _ => None
  }
}

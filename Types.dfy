/** Data shapes of the stopover companion (types.ts), plus the two wrapper
    datatypes the model uses for JavaScript's null/undefined and for thrown
    errors. */
module Types {

  /** `T | null` or an optional property `x?: T`. */
  datatype Option<+T> = None | Some(value: T) {
    function GetOr(default: T): T {
      match this
      case Some(v) => v
      case None => default
    }
  }

  /** The outcome of a handler that may throw. */
  datatype Result<+R, +E> = Success(value: R) | Failure(error: E)

  /** A latitude/longitude pair in degrees (`Coords`). */
  datatype Coords = Coords(lat: real, lng: real)

  /** A position fix from the geolocation source (`UserLocation`). */
  datatype UserLocation = UserLocation(lat: real, lng: real, accuracy: Option<real>) {
    function Position(): Coords { Coords(lat, lng) }
  }

  /** A wall-clock time of day: the two numbers that `"HH:MM".split(':').map(Number)`
      yields. They are not constrained here, because the source does not check them;
      `Valid` says when they denote a real time of day. */
  datatype Clock = Clock(h: int, m: int) {
    predicate Valid() { 0 <= h < 24 && 0 <= m < 60 }

    /** `h * 60 + m`, the minute of the day the time denotes. */
    function MinuteOfDay(): int { h * 60 + m }
  }

  datatype ActivityKind = Transport | Sightseeing

  /** One stop of the itinerary (`Activity`). `completed` is the only field the
      application changes after start-up. */
  datatype Activity = Activity(
    id: string,
    title: string,
    startTime: Clock,
    endTime: Clock,
    locationName: string,
    coords: Coords,
    description: string,
    keyDetails: string,
    priceEUR: real,
    kind: ActivityKind,
    completed: bool,
    image: Option<string>,
    audioGuideText: Option<string>,
    notes: Option<string>)

  /** A predefined GPX point of interest (`Waypoint`). */
  datatype Waypoint = Waypoint(name: string, lat: real, lng: real)
}

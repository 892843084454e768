/**
 * The position fallback of the dashboard's mount effect: the browser's
 * geolocation first, then the IP lookup, each reduced to its outcome.
 */
module Position {
  import opened Js
  import opened Catalog

  /** What `navigator.geolocation.getCurrentPosition` did. */
  datatype GpsOutcome = GeolocationUnsupported | GpsFailed | GpsFix(latitude: real, longitude: real)

  /** What `fetch('https://ipapi.co/json/')` followed by `res.json()` produced. */
  datatype IpOutcome = IpReply(latitude: JsNum, longitude: JsNum) | IpThrew

  /** The state update the resolution ends with. */
  datatype Resolution = Located(loc: Location) | Unresolved(message: string)

  const IpIncompleteMessage := "Could not determine location via IP."
  const IpFailedMessage := "Failed to determine location. Distances cannot be calculated."

  /** `fetchLocationViaIP` */
  function ResolveViaIp(ip: IpOutcome): (r: Resolution)
    ensures r.Located? <==> ip.IpReply? && NumTruthy(ip.latitude) && NumTruthy(ip.longitude)
    ensures r.Located? ==> r.loc == Location(ip.latitude.value, ip.longitude.value, IpAddress)
    ensures ip.IpReply? && !r.Located? ==> r == Unresolved(IpIncompleteMessage)
    ensures ip.IpThrew? ==> r == Unresolved(IpFailedMessage)
  {
    match ip
    case IpThrew => Unresolved(IpFailedMessage)
    case IpReply(lat, lon) =>
      if NumTruthy(lat) && NumTruthy(lon) then Located(Location(lat.value, lon.value, IpAddress))
      else Unresolved(IpIncompleteMessage)
  }

  /** GPS when it answers; the IP lookup when it fails or is unsupported. */
  function ResolvePosition(gps: GpsOutcome, ip: IpOutcome): (r: Resolution)
    ensures gps.GpsFix? ==> r == Located(Location(gps.latitude, gps.longitude, Gps))
    ensures !gps.GpsFix? ==> r == ResolveViaIp(ip)
  {
    if gps.GpsFix? then Located(Location(gps.latitude, gps.longitude, Gps)) else ResolveViaIp(ip)
  }

  /** GPS is preferred: a successful fix makes the IP outcome irrelevant, and an IP
      position is reported only when GPS did not answer. */
  lemma GpsPreferred(gps: GpsOutcome, ip1: IpOutcome, ip2: IpOutcome)
    ensures gps.GpsFix? ==> ResolvePosition(gps, ip1) == ResolvePosition(gps, ip2)
    ensures ResolvePosition(gps, ip1).Located? && ResolvePosition(gps, ip1).loc.source == IpAddress ==> !gps.GpsFix?
  {
  }

  /** Only a total failure is reported, and then with one of the two messages. */
  lemma FailureMessages(gps: GpsOutcome, ip: IpOutcome)
    ensures ResolvePosition(gps, ip).Unresolved? <==>
      !gps.GpsFix? && !(ip.IpReply? && NumTruthy(ip.latitude) && NumTruthy(ip.longitude))
    ensures ResolvePosition(gps, ip).Unresolved? ==>
      ResolvePosition(gps, ip).message in {IpIncompleteMessage, IpFailedMessage}
  {
  }

  /** An IP position always passes the distance guard on the user's side; a GPS fix on the
      equator or the prime meridian never does, so every distance from it is null. */
  lemma GuardOnResolvedPosition(haversine: Haversine, gps: GpsOutcome, ip: IpOutcome, lat: JsNum, lon: JsNum)
    requires ResolvePosition(gps, ip).Located?
    ensures var loc := ResolvePosition(gps, ip).loc;
      && (loc.source == IpAddress && NumTruthy(lat) && NumTruthy(lon) ==>
            CalculateDistance(haversine, Num(loc.lat), Num(loc.lon), lat, lon).Some?)
      && (loc.source == Gps && (loc.lat == 0.0 || loc.lon == 0.0) ==>
            CalculateDistance(haversine, Num(loc.lat), Num(loc.lon), lat, lon).None?)
  {
  }
}

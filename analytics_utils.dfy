/**
 * Client-IP resolution for the track endpoint and the IP-to-location lookup.
 * The geolocation provider is an input: `provider(ip)` is what the HTTP call
 * for `ip` produced, either a decoded JSON object or an exception.
 */
module AnalyticsUtils {
  import opened Wrappers
  import opened Text
  import opened AnalyticsModels

  /** The request's META dictionary. */
  type Meta = map<string, string>

  const ForwardedFor: string := "HTTP_X_FORWARDED_FOR"
  const RemoteAddr: string := "REMOTE_ADDR"

  /** `X-Forwarded-For` is present and non-empty (Python truthiness). */
  predicate HasForwardedFor(meta: Meta) {
    ForwardedFor in meta && meta[ForwardedFor] != ""
  }

  /** The value of `REMOTE_ADDR`, or None when the key is missing. */
  function RemoteAddress(meta: Meta): Option<string> {
    if RemoteAddr in meta then Some(meta[RemoteAddr]) else None
  }

  /** The first hop of `X-Forwarded-For`, whitespace-stripped. */
  function FirstHop(xff: string): (r: string)
    ensures ',' !in r
    ensures r == [] || (!IsPySpace(r[0]) && !IsPySpace(r[|r| - 1]))
  {
    var f := FirstField(xff, ',');
    StripKeepsChars(f);
    Strip(f)
  }

  /**
   * `get_client_ip`: the first `X-Forwarded-For` hop when that header is
   * non-empty, otherwise `REMOTE_ADDR` as it is, None included.
   */
  function ClientIp(meta: Meta): (ip: Option<string>)
    ensures HasForwardedFor(meta) ==> ip.Some? && ip.value == FirstHop(meta[ForwardedFor])
    ensures !HasForwardedFor(meta) ==> ip == RemoteAddress(meta)
  {
    if HasForwardedFor(meta) then Some(FirstHop(meta[ForwardedFor])) else RemoteAddress(meta)
  }

  /** Appending further proxy hops to `X-Forwarded-For` never changes the resolved IP. */
  lemma {:induction false} FirstHopIgnoresLaterHops(first: string, rest: string)
    requires ',' !in first
    ensures FirstHop(first + "," + rest) == FirstHop(first)
  {
    FirstFieldConcat(first, ',', rest);
  }

  /** The addresses that skip the lookup: loopback by name or number, and 192.168.0.0/16. */
  predicate IsLocalIp(ip: string) {
    ip == "127.0.0.1" || StartsWith(ip, "192.168.") || ip == "localhost"
  }

  /** The fixed answer for local addresses. */
  const LocalPlaceholder: map<string, Json> :=
    map["city" := JStr("Localhost"), "country_name" := JStr("Local Dev"),
        "lat" := JNum(23.5937), "lng" := JNum(78.9629)]

  /** What the provider call produced: a decoded payload, or an exception. */
  datatype Lookup = Raised | Payload(data: map<string, Json>)

  /** `data.get(key)`: the value, or null when the key is missing. */
  function GetOrNull(data: map<string, Json>, key: string): Json {
    if key in data then data[key] else JNull
  }

  const LocationKeys: set<string> := {"city", "region", "country", "lat", "lng", "org"}

  /** The location built from a provider answer, before the local-address test. */
  function FromLookup(answer: Lookup): (r: map<string, Json>)
    ensures answer.Raised? ==> r == map[]
    ensures answer.Payload? && "error" in answer.data ==> r == map[]
    ensures answer.Payload? && "error" !in answer.data ==>
              r.Keys == LocationKeys
              && r["country"] == GetOrNull(answer.data, "country_name")
              && r["lat"] == GetOrNull(answer.data, "latitude")
              && r["lng"] == GetOrNull(answer.data, "longitude")
              && (forall k | k in {"city", "region", "org"} :: r[k] == GetOrNull(answer.data, k))
  {
    match answer
    case Raised => map[]
    case Payload(data) =>
      if "error" in data then map[]
      else
        map["city" := GetOrNull(data, "city"), "region" := GetOrNull(data, "region"),
            "country" := GetOrNull(data, "country_name"), "lat" := GetOrNull(data, "latitude"),
            "lng" := GetOrNull(data, "longitude"), "org" := GetOrNull(data, "org")]
  }

  /** `get_ip_location`: local addresses short-circuit, the rest go to the provider. */
  function IpLocation(ip: string, provider: string -> Lookup): (r: map<string, Json>)
    ensures IsLocalIp(ip) ==> r == LocalPlaceholder
    ensures !IsLocalIp(ip) ==> r == FromLookup(provider(ip))
  {
    if IsLocalIp(ip) then LocalPlaceholder else FromLookup(provider(ip))
  }

  /** A local address gets the same answer whatever the provider would say: it is never asked. */
  lemma LocalIpNeverLooksUp(ip: string, p1: string -> Lookup, p2: string -> Lookup)
    requires IsLocalIp(ip)
    ensures IpLocation(ip, p1) == IpLocation(ip, p2) == LocalPlaceholder
  {
  }

  /** A 10.0.0.0/8 address is not special-cased: its location is whatever the provider says. */
  lemma TenNetIsLookedUp(ip: string, provider: string -> Lookup)
    requires StartsWith(ip, "10.")
    ensures IpLocation(ip, provider) == FromLookup(provider(ip))
  {
    assert ip[0] == '1' && ip[1] == '0';
    assert ip != "127.0.0.1" && ip != "localhost";
    assert !StartsWith(ip, "192.168.") by {
      if |ip| >= 8 { assert ip[..8][1] == ip[1]; }
    }
  }

  /** Every answer the lookup can give is empty, the placeholder, or has exactly the six location keys. */
  lemma LocationShapes(ip: string, provider: string -> Lookup)
    ensures var r := IpLocation(ip, provider);
            r == map[] || r == LocalPlaceholder || r.Keys == LocationKeys
  {
  }
}

/**
 * The visitor-tracking middleware. Every request outside the admin and status
 * paths gets a session, and the visitor row for that session is created or, at
 * most once per 30 seconds, refreshed. The refresh writes back only the fields
 * it changed.
 */
module TrackingMiddleware {
  import opened Wrappers
  import opened Text
  import opened AnalyticsModels
  import opened AnalyticsUtils

  /** Seconds an existing visitor must have been quiet before its row is written again. */
  const MinUpdateInterval: int := 30

  /**
   * The middleware's own client-IP resolution. With no usable `X-Forwarded-For`,
   * a missing or empty `REMOTE_ADDR` becomes "0.0.0.0".
   */
  function MiddlewareClientIp(meta: Meta): (ip: string)
    ensures HasForwardedFor(meta) ==> ip == FirstHop(meta[ForwardedFor])
    ensures !HasForwardedFor(meta) && RemoteAddr in meta && meta[RemoteAddr] != "" ==> ip == meta[RemoteAddr]
    ensures !HasForwardedFor(meta) && (RemoteAddr !in meta || meta[RemoteAddr] == "") ==> ip == "0.0.0.0"
  {
    if HasForwardedFor(meta) then FirstHop(meta[ForwardedFor])
    else if RemoteAddr in meta && meta[RemoteAddr] != "" then meta[RemoteAddr]
    else "0.0.0.0"
  }

  /**
   * The middleware and the track endpoint resolve the same address, except that
   * when no proxy header is used the middleware turns an absent or empty
   * address into "0.0.0.0".
   */
  lemma MiddlewareIpAgreesWithClientIp(meta: Meta)
    ensures HasForwardedFor(meta) ==> ClientIp(meta) == Some(MiddlewareClientIp(meta))
    ensures !HasForwardedFor(meta) ==>
              MiddlewareClientIp(meta) == (if ClientIp(meta).Some? && ClientIp(meta).value != "" then ClientIp(meta).value else "0.0.0.0")
  {
  }

  /** Without a proxy header the middleware's address is never empty. */
  lemma MiddlewareIpNonEmptyWithoutProxy(meta: Meta)
    requires !HasForwardedFor(meta)
    ensures MiddlewareClientIp(meta) != ""
  {
  }

  /** The paths the middleware passes straight through. */
  predicate IsExcludedPath(path: string) {
    StartsWith(path, "/admin") || StartsWith(path, "/api/v1/features/status/")
  }

  /** What the middleware sees of a request: its path, META and current session key. */
  datatype Request = Request(path: string, meta: Meta, sessionKey: Option<string>)

  /**
   * How the request left the middleware: passed straight through, tracked under
   * a session key, or failed on creating the row because the User-Agent header
   * was absent and `user_agent` is NOT NULL.
   */
  datatype Outcome = PassedThrough | Tracked(sessionKey: string) | NotNullViolation

  /** The session key after `session.create()` has run when there was none (None or ""). */
  function SessionKeyAfterEnsure(current: Option<string>, freshKey: string): (key: string)
    ensures current.Some? && current.value != "" ==> key == current.value
    ensures current.None? || current.value == "" ==> key == freshKey
  {
    if current.Some? && current.value != "" then current.value else freshKey
  }

  /** The `User-Agent` header, None when the request has none. */
  function UserAgentHeader(meta: Meta): Option<string> {
    if "HTTP_USER_AGENT" in meta then Some(meta["HTTP_USER_AGENT"]) else None
  }

  /**
   * The row `get_or_create` inserts for an unseen session key. The address
   * column stores a blank address as NULL.
   */
  function CreatedVisitor(key: string, ip: string, ua: string, now: Time): (v: Visitor)
    ensures v.sessionKey == Some(key) && v.userAgent == ua
    ensures ip != "" ==> v.remoteIp == Some(ip)
    ensures ip == "" ==> v.remoteIp == None
    ensures v.visits == 1 && v.isOnline && v.lastVisit == now && v.firstVisit == now
    ensures v.deviceType == "Desktop" && v.location == map[]
  {
    NewVisitor(now).(sessionKey := Some(key), remoteIp := StoredIp(Some(ip)), userAgent := ua,
                     visits := 1, lastVisit := now, isOnline := true)
  }

  /**
   * The row an existing visitor ends up with: untouched inside the debounce
   * window; otherwise stamped `now`, marked online, its address refreshed
   * (a blank address is stored as NULL), and its visit count bumped when the
   * last visit was on an earlier UTC date.
   */
  function Debounced(v: Visitor, ip: string, now: Time): (r: Visitor)
    ensures v.lastVisit >= now - MinUpdateInterval ==> r == v
    ensures v.lastVisit < now - MinUpdateInterval ==>
              r.lastVisit == now && r.isOnline && r.remoteIp == (if ip == "" then None else Some(ip))
    ensures r.visits == (if v.lastVisit < now - MinUpdateInterval && Day(v.lastVisit) < Day(now)
                         then v.visits + 1 else v.visits)
    ensures r.sessionKey == v.sessionKey && r.userAgent == v.userAgent && r.location == v.location
    ensures r.firstVisit == v.firstVisit && r.deviceType == v.deviceType
  {
    if v.lastVisit < now - MinUpdateInterval then
      v.(lastVisit := now, isOnline := true, remoteIp := StoredIp(Some(ip)),
         visits := if Day(v.lastVisit) < Day(now) then v.visits + 1 else v.visits)
    else v
  }

  /** The visit count never goes down, and goes up by at most one per request. */
  lemma VisitsMonotone(v: Visitor, ip: string, now: Time)
    ensures v.visits <= Debounced(v, ip, now).visits <= v.visits + 1
  {
  }

  /** The columns `save(update_fields=...)` can name here. */
  datatype Field = LastVisitField | IsOnlineField | VisitsField | RemoteIpField

  function SaveField(row: Visitor, obj: Visitor, f: Field): Visitor {
    match f
    case LastVisitField => row.(lastVisit := obj.lastVisit)
    case IsOnlineField => row.(isOnline := obj.isOnline)
    case VisitsField => row.(visits := obj.visits)
    case RemoteIpField => row.(remoteIp := StoredIp(obj.remoteIp))
  }

  /**
   * `obj.save(update_fields=fields)` over the stored `row`: each listed column
   * takes the in-memory value (an address as the column stores it), every
   * other column keeps the stored one.
   */
  function SaveFields(row: Visitor, obj: Visitor, fields: seq<Field>): (r: Visitor)
    ensures r.lastVisit == (if LastVisitField in fields then obj.lastVisit else row.lastVisit)
    ensures r.isOnline == (if IsOnlineField in fields then obj.isOnline else row.isOnline)
    ensures r.visits == (if VisitsField in fields then obj.visits else row.visits)
    ensures r.remoteIp == (if RemoteIpField in fields then StoredIp(obj.remoteIp) else row.remoteIp)
    ensures r.sessionKey == row.sessionKey && r.userAgent == row.userAgent && r.location == row.location
    ensures r.firstVisit == row.firstVisit && r.deviceType == row.deviceType
    decreases |fields|
  {
    if fields == [] then row
    else
      assert forall f :: f in fields <==> f == fields[0] || f in fields[1..];
      SaveFields(SaveField(row, obj, fields[0]), obj, fields[1..])
  }

  /** The visitor table after one request, and how the request left the middleware. */
  function AfterRequest(vs: map<Uuid, Visitor>, req: Request, now: Time, freshKey: string, newId: Uuid)
    : (r: (map<Uuid, Visitor>, Outcome))
    ensures r.1.Tracked? ==> r.1.sessionKey == SessionKeyAfterEnsure(req.sessionKey, freshKey)
    ensures r.1 != PassedThrough <==> !IsExcludedPath(req.path)
  {
    if IsExcludedPath(req.path) then (vs, PassedThrough)
    else
      var key := SessionKeyAfterEnsure(req.sessionKey, freshKey);
      var ip := MiddlewareClientIp(req.meta);
      if WithSession(vs, key) == {} then
        match UserAgentHeader(req.meta)
        case None => (vs, NotNullViolation)
        case Some(ua) => (vs[newId := CreatedVisitor(key, ip, ua, now)], Tracked(key))
      else
        (map id | id in vs :: if vs[id].sessionKey == Some(key) then Debounced(vs[id], ip, now) else vs[id],
         Tracked(key))
  }

  /** An admin or status request leaves the table as it was. */
  lemma ExcludedPathLeavesTable(vs: map<Uuid, Visitor>, req: Request, now: Time, freshKey: string, newId: Uuid)
    requires IsExcludedPath(req.path)
    ensures AfterRequest(vs, req, now, freshKey, newId) == (vs, PassedThrough)
  {
  }

  /**
   * A session key no visitor carries yet adds exactly one visitor, under the
   * new id, carrying that key, the resolved address, one visit and `now`.
   */
  lemma UnseenSessionCreatesOne(vs: map<Uuid, Visitor>, req: Request, now: Time, freshKey: string, newId: Uuid)
    requires !IsExcludedPath(req.path) && newId !in vs
    requires WithSession(vs, SessionKeyAfterEnsure(req.sessionKey, freshKey)) == {}
    requires UserAgentHeader(req.meta).Some?
    ensures var ws := AfterRequest(vs, req, now, freshKey, newId).0;
            ws.Keys == vs.Keys + {newId} && |ws| == |vs| + 1
            && (forall id | id in vs :: ws[id] == vs[id])
            && ws[newId].sessionKey == Some(SessionKeyAfterEnsure(req.sessionKey, freshKey))
            && ws[newId].visits == 1 && ws[newId].isOnline && ws[newId].lastVisit == now
            && ws[newId].remoteIp == StoredIp(Some(MiddlewareClientIp(req.meta)))
  {
  }

  /**
   * A known session changes only its own row, and only as `Debounced` says;
   * in particular a request inside the debounce window changes nothing.
   */
  lemma KnownSessionUpdatesOnlyItsRow(vs: map<Uuid, Visitor>, req: Request, now: Time, freshKey: string, newId: Uuid, id: Uuid)
    requires !IsExcludedPath(req.path) && UniqueSessionKeys(vs)
    requires id in WithSession(vs, SessionKeyAfterEnsure(req.sessionKey, freshKey))
    ensures var ws := AfterRequest(vs, req, now, freshKey, newId).0;
            ws.Keys == vs.Keys
            && ws[id] == Debounced(vs[id], MiddlewareClientIp(req.meta), now)
            && (forall other | other in vs && other != id :: ws[other] == vs[other])
            && (vs[id].lastVisit >= now - MinUpdateInterval ==> ws == vs)
            && ws == vs[id := Debounced(vs[id], MiddlewareClientIp(req.meta), now)]
  {
    var key := SessionKeyAfterEnsure(req.sessionKey, freshKey);
    var ws := AfterRequest(vs, req, now, freshKey, newId).0;
    forall other | other in vs && other != id ensures ws[other] == vs[other] {
      assert vs[other].sessionKey != Some(key);
    }
    assert ws == vs[id := Debounced(vs[id], MiddlewareClientIp(req.meta), now)];
  }

  /** Every request keeps session keys unique. */
  lemma AfterRequestKeepsUnique(vs: map<Uuid, Visitor>, req: Request, now: Time, freshKey: string, newId: Uuid)
    requires UniqueSessionKeys(vs) && newId !in vs
    ensures UniqueSessionKeys(AfterRequest(vs, req, now, freshKey, newId).0)
  {
    var ws := AfterRequest(vs, req, now, freshKey, newId).0;
    var key := SessionKeyAfterEnsure(req.sessionKey, freshKey);
    if !IsExcludedPath(req.path) && WithSession(vs, key) == {} && UserAgentHeader(req.meta).Some? {
      forall a, b | a in ws && b in ws && a != b && ws[a].sessionKey.Some?
        ensures ws[a].sessionKey != ws[b].sessionKey
      {
        if a == newId {
          assert b in vs && b !in WithSession(vs, key);
        } else if b == newId {
          assert a in vs && a !in WithSession(vs, key);
        }
      }
    }
  }

  /** No request leaves a blank address in the table, whatever the proxy header holds. */
  lemma AfterRequestStoresNoBlankIp(vs: map<Uuid, Visitor>, req: Request, now: Time, freshKey: string, newId: Uuid)
    requires NoBlankIp(vs)
    ensures NoBlankIp(AfterRequest(vs, req, now, freshKey, newId).0)
  {
    var ws := AfterRequest(vs, req, now, freshKey, newId).0;
    var key := SessionKeyAfterEnsure(req.sessionKey, freshKey);
    var ip := MiddlewareClientIp(req.meta);
    if !IsExcludedPath(req.path) && WithSession(vs, key) != {} {
      forall id | id in ws ensures ws[id].remoteIp != Some("") {
        assert ws[id] == vs[id] || ws[id] == Debounced(vs[id], ip, now);
      }
    }
  }

  /**
   * `VisitorTrackingMiddleware.__call__`, on the tables. `freshKey` is the key
   * `session.create()` would produce and `newId` the uuid a new row would get.
   */
  method HandleRequest(t: Tables, req: Request, now: Time, freshKey: string, newId: Uuid) returns (out: Outcome)
    requires t.Valid() && newId !in t.visitors
    modifies t
    ensures t.Valid()
    ensures (t.visitors, out) == AfterRequest(old(t.visitors), req, now, freshKey, newId)
    ensures t.pageViews == old(t.pageViews)
  {
    if IsExcludedPath(req.path) {
      return PassedThrough;
    }
    var key := SessionKeyAfterEnsure(req.sessionKey, freshKey);
    var ip := MiddlewareClientIp(req.meta);
    AfterRequestKeepsUnique(t.visitors, req, now, freshKey, newId);
    AfterRequestStoresNoBlankIp(t.visitors, req, now, freshKey, newId);
    var matches := WithSession(t.visitors, key);
    if matches == {} {
      var ua := UserAgentHeader(req.meta);
      if ua.None? {
        return NotNullViolation;
      }
      t.visitors := t.visitors[newId := CreatedVisitor(key, ip, ua.value, now)];
      return Tracked(key);
    }
    var id :| id in matches;
    KnownSessionUpdatesOnlyItsRow(t.visitors, req, now, freshKey, newId, id);
    var refreshed := RefreshVisitor(t.visitors[id], ip, now);
    t.visitors := t.visitors[id := refreshed];
    return Tracked(key);
  }

  /**
   * The update branch for an existing visitor: outside the debounce window it
   * collects the changed columns in `fields` and saves just those. `row` was
   * read from the table, so its address is never blank.
   */
  method RefreshVisitor(row: Visitor, ip: string, now: Time) returns (saved: Visitor)
    requires row.remoteIp != Some("")
    ensures saved == Debounced(row, ip, now)
  {
    saved := row;
    if row.lastVisit < now - MinUpdateInterval {
      var visitor := row;
      var fields := [LastVisitField, IsOnlineField];
      if Day(visitor.lastVisit) < Day(now) {
        visitor := visitor.(visits := visitor.visits + 1);
        fields := fields + [VisitsField];
      }
      if visitor.remoteIp != Some(ip) {
        visitor := visitor.(remoteIp := Some(ip));
        fields := fields + [RemoteIpField];
      }
      visitor := visitor.(lastVisit := now, isOnline := true);
      saved := SaveFields(row, visitor, fields);
    }
  }
}

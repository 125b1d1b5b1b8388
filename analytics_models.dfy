/**
 * The two analytics record types, `Visitor` and `PageView`, with the
 * defaults, the uniqueness of `session_key` and the cascade from a visitor to
 * its page views. Times are whole seconds since the epoch in UTC, so the
 * calendar date of a time `t` is `t / 86400`.
 */
module AnalyticsModels {
  import opened Wrappers
  import Ordering

  type Time = int
  type Uuid = nat

  const SecondsPerDay: int := 86400

  /** The UTC calendar date of a time, as a day number. */
  function Day(t: Time): int {
    t / SecondsPerDay
  }

  /** The values a JSON column can hold, as far as the location column uses them. */
  datatype Json = JNull | JStr(s: string) | JNum(n: real)

  /** A visitor row; its primary key is the key it is stored under in the table. */
  datatype Visitor = Visitor(
    sessionKey: Option<string>,
    isOnline: bool,
    remoteIp: Option<string>,
    userAgent: string,
    deviceType: string,
    location: map<string, Json>,
    firstVisit: Time,
    lastVisit: Time,
    visits: int)

  datatype PageView = PageView(
    visitor: Uuid,
    path: string,
    timestamp: Time,
    httpMethod: string,
    referrer: Option<string>,
    statusCode: int)

  /** The declared fields of Visitor, including the reverse relation `page_views`. */
  const VisitorFieldNames: set<string> :=
    {"id", "session_key", "is_online", "remote_ip", "user_agent", "device_type",
     "location", "first_visit", "last_visit", "visits", "page_views"}

  /**
   * A Visitor built from field defaults only, saved at `now`: both timestamps
   * are stamped at creation, and the NOT NULL text column `user_agent`
   * holds "" when nothing is given.
   */
  function NewVisitor(now: Time): (v: Visitor)
    ensures v.sessionKey == None && v.remoteIp == None
    ensures !v.isOnline && v.deviceType == "Desktop" && v.location == map[] && v.visits == 1
    ensures v.firstVisit == now && v.lastVisit == now
    ensures v.userAgent == ""
  {
    Visitor(None, false, None, "", "Desktop", map[], now, now, 1)
  }

  /** A PageView saved at `now` with the default method and status code. */
  function NewPageView(visitor: Uuid, path: string, referrer: Option<string>, now: Time): (p: PageView)
    ensures p.visitor == visitor && p.path == path && p.referrer == referrer
    ensures p.httpMethod == "GET" && p.statusCode == 200 && p.timestamp == now
  {
    PageView(visitor, path, now, "GET", referrer, 200)
  }

  /** `session_key` is unique among the rows where it is not null. */
  predicate UniqueSessionKeys(vs: map<Uuid, Visitor>) {
    forall a, b | a in vs && b in vs && a != b :: vs[a].sessionKey.Some? ==> vs[a].sessionKey != vs[b].sessionKey
  }

  /** Every page view references an existing visitor (the foreign key). */
  predicate ReferencesExist(vs: map<Uuid, Visitor>, pvs: seq<PageView>) {
    forall k | 0 <= k < |pvs| :: pvs[k].visitor in vs
  }

  /**
   * The address a `remote_ip` column holds after `ip` is saved. The column is
   * nullable, and the database adapter writes a blank address as NULL.
   */
  function StoredIp(ip: Option<string>): (r: Option<string>)
    ensures r != Some("")
    ensures ip != Some("") ==> r == ip
    ensures ip == Some("") ==> r == None
  {
    if ip == Some("") then None else ip
  }

  /** No row holds a blank address: every write goes through `StoredIp`. */
  predicate NoBlankIp(vs: map<Uuid, Visitor>) {
    forall id | id in vs :: vs[id].remoteIp != Some("")
  }

  predicate TablesValid(vs: map<Uuid, Visitor>, pvs: seq<PageView>) {
    UniqueSessionKeys(vs) && NoBlankIp(vs) && ReferencesExist(vs, pvs)
  }

  /** The visitors whose `session_key` is `key`. */
  function WithSession(vs: map<Uuid, Visitor>, key: string): set<Uuid> {
    set id | id in vs && vs[id].sessionKey == Some(key)
  }

  /** With unique session keys, at most one visitor carries a given key. */
  lemma SessionKeyIdentifiesVisitor(vs: map<Uuid, Visitor>, key: string, a: Uuid, b: Uuid)
    requires UniqueSessionKeys(vs)
    requires a in WithSession(vs, key) && b in WithSession(vs, key)
    ensures a == b
  {
  }

  /**
   * The visitors the lookup `remote_ip=ip` finds. None becomes an `isnull`
   * test and finds the NULL rows. A blank address reaches the database as NULL
   * inside an equality test, which no row satisfies.
   */
  function WithIp(vs: map<Uuid, Visitor>, ip: Option<string>): (r: set<Uuid>)
    ensures ip == Some("") ==> r == {}
    ensures ip != Some("") ==> forall id :: id in r <==> id in vs && vs[id].remoteIp == ip
  {
    if ip == Some("") then {} else set id | id in vs && vs[id].remoteIp == ip
  }

  /**
   * Page views that do not reference `id`: each such row as often as it
   * occurs (`KeepPageViewsCounts`), in table order (`KeepPageViewsAppend`).
   */
  function KeepPageViews(pvs: seq<PageView>, id: Uuid): (r: seq<PageView>)
    ensures forall p :: p in r <==> p in pvs && p.visitor != id
    ensures |r| <= |pvs|
  {
    if pvs == [] then []
    else (if pvs[0].visitor == id then [] else [pvs[0]]) + KeepPageViews(pvs[1..], id)
  }

  /** Every row that does not reference `id` is kept as often as it occurs, and no other row is. */
  lemma {:induction false} KeepPageViewsCounts(pvs: seq<PageView>, id: Uuid)
    ensures forall p :: multiset(KeepPageViews(pvs, id))[p] == if p.visitor != id then multiset(pvs)[p] else 0
  {
    if pvs != [] {
      assert pvs == [pvs[0]] + pvs[1..];
      KeepPageViewsCounts(pvs[1..], id);
    }
  }

  /** The filter works row by row, so it keeps the relative order of the rows. */
  lemma {:induction false} KeepPageViewsAppend(a: seq<PageView>, b: seq<PageView>, id: Uuid)
    ensures KeepPageViews(a + b, id) == KeepPageViews(a, id) + KeepPageViews(b, id)
  {
    if a == [] {
      assert a + b == b;
    } else {
      assert (a + b)[0] == a[0] && (a + b)[1..] == a[1..] + b;
      KeepPageViewsAppend(a[1..], b, id);
    }
  }

  /** Removes the visitor `id` and, by the cascade, every page view that references it. */
  function CascadeDelete(vs: map<Uuid, Visitor>, pvs: seq<PageView>, id: Uuid): (r: (map<Uuid, Visitor>, seq<PageView>))
    ensures r.0.Keys == vs.Keys - {id}
    ensures forall k | k in r.0 :: r.0[k] == vs[k]
    ensures forall p :: multiset(r.1)[p] == if p.visitor != id then multiset(pvs)[p] else 0
  {
    KeepPageViewsCounts(pvs, id);
    (vs - {id}, KeepPageViews(pvs, id))
  }

  /** Deleting a visitor leaves the tables valid: no page view is left dangling. */
  lemma CascadeDeleteKeepsValid(vs: map<Uuid, Visitor>, pvs: seq<PageView>, id: Uuid)
    requires TablesValid(vs, pvs)
    ensures TablesValid(CascadeDelete(vs, pvs, id).0, CascadeDelete(vs, pvs, id).1)
  {
    var (ws, qs) := CascadeDelete(vs, pvs, id);
    forall k | 0 <= k < |qs| ensures qs[k].visitor in ws {
      assert qs[k] in qs;
      assert qs[k] in pvs;
    }
  }

  /**
   * Newest-first order, the default ordering of page views: sorted by
   * timestamp, descending; the order of equal timestamps is left open.
   */
  function NewestFirst(pvs: seq<PageView>): (r: seq<PageView>)
    ensures multiset(r) == multiset(pvs)
    ensures forall i, j | 0 <= i < j < |r| :: r[i].timestamp >= r[j].timestamp
  {
    Ordering.SortDesc(pvs, (p: PageView) => p.timestamp)
  }

  /** The two tables, updated in place by the tracking middleware and the track endpoint. */
  class Tables {
    var visitors: map<Uuid, Visitor>
    var pageViews: seq<PageView>

    ghost predicate Valid()
      reads this
    {
      TablesValid(visitors, pageViews)
    }

    constructor ()
      ensures Valid() && visitors == map[] && pageViews == []
    {
      visitors := map[];
      pageViews := [];
    }

    /** Deletes a visitor; the database removes its page views with it. */
    method DeleteVisitor(id: Uuid)
      requires Valid()
      modifies this
      ensures Valid()
      ensures (visitors, pageViews) == CascadeDelete(old(visitors), old(pageViews), id)
    {
      CascadeDeleteKeepsValid(visitors, pageViews, id);
      visitors := visitors - {id};
      pageViews := KeepPageViews(pageViews, id);
    }
  }
}

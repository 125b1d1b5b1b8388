/**
 * The analytics endpoints: the public track call that upserts a visitor by
 * client address and logs one page view, the dashboard aggregates, and the
 * visitor list ordering.
 */
module AnalyticsViews {
  import opened Wrappers
  import opened AnalyticsModels
  import opened AnalyticsUtils
  import Ordering

  // ---------------------------------------------------------------------------
  // Track endpoint
  // ---------------------------------------------------------------------------

  /** The JSON body of a track call; None stands for a key the body lacks. */
  datatype TrackBody = TrackBody(path: Option<string>, referrer: Option<string>, userAgent: Option<string>)

  /**
   * The keyword `get_or_create` is called with. The code passes `ip_address`;
   * the column that holds the address is `remote_ip`.
   */
  datatype Keyword = IpAddress | RemoteIp

  function KeywordName(k: Keyword): string {
    match k
    case IpAddress => "ip_address"
    case RemoteIp => "remote_ip"
  }

  /** The response: 201 "tracked", or the exception `get_or_create` raised. */
  datatype TrackResult = Created201 | FieldError | MultipleObjectsReturned

  /** `data.get('path', '/')`. */
  function PathOf(body: TrackBody): (p: string)
    ensures body.path.None? ==> p == "/"
    ensures body.path.Some? ==> p == body.path.value
  {
    if body.path.Some? then body.path.value else "/"
  }

  /** `data.get('referrer', '')`. */
  function ReferrerOf(body: TrackBody): (r: string)
    ensures body.referrer.None? ==> r == ""
    ensures body.referrer.Some? ==> r == body.referrer.value
  {
    if body.referrer.Some? then body.referrer.value else ""
  }

  /** The user agent after the optional overwrite: only a non-empty value replaces the stored one. */
  function WithUserAgent(v: Visitor, body: TrackBody): (r: Visitor)
    ensures body.userAgent.Some? && body.userAgent.value != "" ==> r.userAgent == body.userAgent.value
    ensures body.userAgent.None? || body.userAgent.value == "" ==> r.userAgent == v.userAgent
    ensures r == v.(userAgent := r.userAgent)
  {
    if body.userAgent.Some? && body.userAgent.value != "" then v.(userAgent := body.userAgent.value) else v
  }

  /** The visitor a lookup by address returns when there is one. */
  ghost function FoundVisitor(vs: map<Uuid, Visitor>, ip: Option<string>): (id: Uuid)
    requires WithIp(vs, ip) != {}
    ensures id in vs && vs[id].remoteIp == ip
  {
    var x :| x in WithIp(vs, ip); x
  }

  /**
   * The two tables and the response after one track call. A keyword that
   * names no Visitor field fails before any query. Otherwise the visitors
   * with the client's address are looked up: two or more is an error, none
   * creates one under `newId`, and the one found (or created) is stamped and
   * gets one new page view. A blank address finds no row, and the row created
   * for it holds NULL.
   */
  ghost function AfterTrack(vs: map<Uuid, Visitor>, pvs: seq<PageView>, kw: Keyword, meta: Meta,
                            body: TrackBody, now: Time, newId: Uuid)
    : (r: (map<Uuid, Visitor>, seq<PageView>, TrackResult))
    ensures r.2 != Created201 ==> r.0 == vs && r.1 == pvs
  {
    if KeywordName(kw) !in VisitorFieldNames then (vs, pvs, FieldError)
    else
      var ip := ClientIp(meta);
      var found := WithIp(vs, ip);
      if |found| > 1 then (vs, pvs, MultipleObjectsReturned)
      else
        var id := if found == {} then newId else FoundVisitor(vs, ip);
        var base := if found == {} then NewVisitor(now).(remoteIp := StoredIp(ip)) else vs[id];
        (vs[id := WithUserAgent(base.(lastVisit := now), body)],
         pvs + [NewPageView(id, PathOf(body), Some(ReferrerOf(body)), now)],
         Created201)
  }

  /**
   * The endpoint as written: `ip_address` is not a Visitor field, so every call
   * fails with FieldError and neither table changes.
   */
  lemma TrackAsWrittenAlwaysFails(vs: map<Uuid, Visitor>, pvs: seq<PageView>, meta: Meta,
                                  body: TrackBody, now: Time, newId: Uuid)
    ensures AfterTrack(vs, pvs, IpAddress, meta, body, now, newId) == (vs, pvs, FieldError)
  {
    assert "ip_address" !in VisitorFieldNames;
  }

  lemma SingletonMember(s: set<Uuid>, a: Uuid, b: Uuid)
    requires |s| <= 1 && a in s && b in s
    ensures a == b
  {
    if a != b {
      Cardinality({a, b}, s);
    }
  }

  /**
   * A successful call (keyword `remote_ip`) appends exactly one page view, with
   * the defaulted path and referrer, to a visitor that now has the client's
   * address and `last_visit == now`; only that visitor's row changes, and only
   * in `last_visit` and possibly `user_agent`.
   */
  lemma TrackAppendsOnePageView(vs: map<Uuid, Visitor>, pvs: seq<PageView>, meta: Meta,
                                body: TrackBody, now: Time, newId: Uuid)
    requires newId !in vs
    requires AfterTrack(vs, pvs, RemoteIp, meta, body, now, newId).2 == Created201
    ensures var (ws, qs, _) := AfterTrack(vs, pvs, RemoteIp, meta, body, now, newId);
            |qs| == |pvs| + 1 && qs[..|pvs|] == pvs
            && var pv := qs[|pvs|];
            pv.visitor in ws && ws[pv.visitor].remoteIp == StoredIp(ClientIp(meta)) && ws[pv.visitor].lastVisit == now
            && pv.path == PathOf(body) && pv.referrer == Some(ReferrerOf(body)) && pv.timestamp == now
            && (forall id | id in vs && id != pv.visitor :: id in ws && ws[id] == vs[id])
            && ws.Keys <= vs.Keys + {newId}
  {
    var ip := ClientIp(meta);
    var found := WithIp(vs, ip);
    var (ws, qs, _) := AfterTrack(vs, pvs, RemoteIp, meta, body, now, newId);
    assert qs[..|pvs|] == pvs;
  }

  /**
   * An address seen before reuses its visitor: no visitor is created and the
   * new page view references the existing one.
   */
  lemma TrackReusesKnownAddress(vs: map<Uuid, Visitor>, pvs: seq<PageView>, meta: Meta,
                                body: TrackBody, now: Time, newId: Uuid, id: Uuid)
    requires WithIp(vs, ClientIp(meta)) == {id}
    ensures var (ws, qs, res) := AfterTrack(vs, pvs, RemoteIp, meta, body, now, newId);
            res == Created201 && ws.Keys == vs.Keys && qs[|qs| - 1].visitor == id
            && ws[id] == WithUserAgent(vs[id].(lastVisit := now), body)
  {
    assert FoundVisitor(vs, ClientIp(meta)) in {id};
  }

  /**
   * An address no visitor has creates exactly one visitor, with the defaults of
   * a fresh row, that address, and `last_visit == now`.
   */
  lemma TrackCreatesForUnknownAddress(vs: map<Uuid, Visitor>, pvs: seq<PageView>, meta: Meta,
                                      body: TrackBody, now: Time, newId: Uuid)
    requires newId !in vs && WithIp(vs, ClientIp(meta)) == {}
    ensures var (ws, qs, res) := AfterTrack(vs, pvs, RemoteIp, meta, body, now, newId);
            res == Created201 && ws.Keys == vs.Keys + {newId} && |ws| == |vs| + 1
            && ws[newId] == WithUserAgent(NewVisitor(now).(remoteIp := StoredIp(ClientIp(meta))), body)
            && qs[|qs| - 1].visitor == newId
  {
    TrackUnknownResult(vs, pvs, meta, body, now, newId);
  }

  /** The whole result of a call whose address no visitor has. */
  lemma TrackUnknownResult(vs: map<Uuid, Visitor>, pvs: seq<PageView>, meta: Meta,
                           body: TrackBody, now: Time, newId: Uuid)
    requires WithIp(vs, ClientIp(meta)) == {}
    ensures AfterTrack(vs, pvs, RemoteIp, meta, body, now, newId)
            == (vs[newId := WithUserAgent(NewVisitor(now).(remoteIp := StoredIp(ClientIp(meta))), body)],
                pvs + [NewPageView(newId, PathOf(body), Some(ReferrerOf(body)), now)],
                Created201)
  {
    RemoteIpIsAField();
    var base := NewVisitor(now).(remoteIp := StoredIp(ClientIp(meta)));
    assert base.(lastVisit := now) == base;
  }

  /**
   * A blank address never finds its earlier rows, so every call with one
   * creates a new visitor, whose address column is NULL.
   */
  lemma TrackBlankAddressAlwaysCreates(vs: map<Uuid, Visitor>, pvs: seq<PageView>, meta: Meta,
                                       body: TrackBody, now: Time, newId: Uuid)
    requires newId !in vs && ClientIp(meta) == Some("")
    ensures var (ws, qs, res) := AfterTrack(vs, pvs, RemoteIp, meta, body, now, newId);
            res == Created201 && ws.Keys == vs.Keys + {newId} && ws[newId].remoteIp == None
  {
    TrackCreatesForUnknownAddress(vs, pvs, meta, body, now, newId);
  }

  /** The corrected keyword names a Visitor field. */
  lemma RemoteIpIsAField()
    ensures KeywordName(RemoteIp) in VisitorFieldNames
  {
  }

  /** Two or more visitors sharing the address make the call fail with nothing written. */
  lemma TrackAmbiguousAddressFails(vs: map<Uuid, Visitor>, pvs: seq<PageView>, meta: Meta,
                                   body: TrackBody, now: Time, newId: Uuid, a: Uuid, b: Uuid)
    requires a != b && a in WithIp(vs, ClientIp(meta)) && b in WithIp(vs, ClientIp(meta))
    ensures AfterTrack(vs, pvs, RemoteIp, meta, body, now, newId) == (vs, pvs, MultipleObjectsReturned)
  {
    Cardinality({a, b}, WithIp(vs, ClientIp(meta)));
  }

  /** Every track call keeps the tables valid. */
  lemma TrackKeepsValid(vs: map<Uuid, Visitor>, pvs: seq<PageView>, kw: Keyword, meta: Meta,
                        body: TrackBody, now: Time, newId: Uuid)
    requires TablesValid(vs, pvs) && newId !in vs
    ensures var (ws, qs, _) := AfterTrack(vs, pvs, kw, meta, body, now, newId);
            TablesValid(ws, qs)
  {
    var (ws, qs, res) := AfterTrack(vs, pvs, kw, meta, body, now, newId);
    if res == Created201 {
      var ip := ClientIp(meta);
      var found := WithIp(vs, ip);
      var id := qs[|pvs|].visitor;
      assert ws.Keys == vs.Keys + {id};
      assert ws[id].sessionKey == (if id in vs then vs[id].sessionKey else None);
      forall a, b | a in ws && b in ws && a != b && ws[a].sessionKey.Some?
        ensures ws[a].sessionKey != ws[b].sessionKey
      {
        assert ws[a].sessionKey == vs[a].sessionKey;
        if b != id { assert ws[b].sessionKey == vs[b].sessionKey; }
      }
      forall k | 0 <= k < |qs| ensures qs[k].visitor in ws {
        if k < |pvs| { assert qs[k] == pvs[k]; }
      }
      assert ws[id].remoteIp == (if id in vs then vs[id].remoteIp else StoredIp(ip));
    }
  }

  /** `TrackPageView.post`, with the lookup keyword as a parameter. */
  method TrackPageView(t: Tables, kw: Keyword, meta: Meta, body: TrackBody, now: Time, newId: Uuid)
    returns (res: TrackResult)
    requires t.Valid() && newId !in t.visitors
    modifies t
    ensures t.Valid()
    ensures (t.visitors, t.pageViews, res) == AfterTrack(old(t.visitors), old(t.pageViews), kw, meta, body, now, newId)
  {
    TrackKeepsValid(t.visitors, t.pageViews, kw, meta, body, now, newId);
    if KeywordName(kw) !in VisitorFieldNames {
      return FieldError;
    }
    var ip := ClientIp(meta);
    var found := WithIp(t.visitors, ip);
    if |found| > 1 {
      return MultipleObjectsReturned;
    }
    var id: Uuid;
    var visitor: Visitor;
    if found == {} {
      id := newId;
      visitor := NewVisitor(now).(remoteIp := StoredIp(ip));
    } else {
      id :| id in found;
      SingletonMember(found, id, FoundVisitor(t.visitors, ip));
      visitor := t.visitors[id];
    }
    visitor := visitor.(lastVisit := now);
    if body.userAgent.Some? && body.userAgent.value != "" {
      visitor := visitor.(userAgent := body.userAgent.value);
    }
    t.visitors := t.visitors[id := visitor];
    t.pageViews := t.pageViews + [NewPageView(id, PathOf(body), Some(ReferrerOf(body)), now)];
    return Created201;
  }

  // ---------------------------------------------------------------------------
  // Dashboard: overview counts
  // ---------------------------------------------------------------------------

  /** The visitors whose last visit is at most 24 hours before `now`. */
  function ActiveVisitors(vs: map<Uuid, Visitor>, now: Time): (active: set<Uuid>)
    ensures forall id :: id in active <==> id in vs && vs[id].lastVisit >= now - SecondsPerDay
  {
    set id | id in vs && vs[id].lastVisit >= now - SecondsPerDay
  }

  /** `active_today`: how many visitors were seen in the last 24 hours; never more than all of them. */
  function ActiveToday(vs: map<Uuid, Visitor>, now: Time): (n: nat)
    ensures n == |ActiveVisitors(vs, now)|
    ensures n <= |vs|
  {
    var active := ActiveVisitors(vs, now);
    Cardinality(active, vs.Keys);
    |active|
  }

  lemma Cardinality(a: set<Uuid>, b: set<Uuid>)
    requires a <= b
    ensures |a| <= |b|
  {
    assert b == a + (b - a);
  }

  datatype Overview = Overview(totalVisitors: nat, activeToday: nat, totalPageviews: nat)

  function OverviewOf(vs: map<Uuid, Visitor>, pvs: seq<PageView>, now: Time): (o: Overview)
    ensures o.totalVisitors == |vs| && o.totalPageviews == |pvs|
    ensures o.activeToday <= o.totalVisitors
  {
    Overview(|vs|, ActiveToday(vs, now), |pvs|)
  }

  // ---------------------------------------------------------------------------
  // Dashboard: page views per day over the last seven days
  // ---------------------------------------------------------------------------

  datatype DayCount = DayCount(day: int, count: nat)

  predicate StrictlyAscending(r: seq<DayCount>) {
    forall i, j | 0 <= i < j < |r| :: r[i].day < r[j].day
  }

  predicate AllPositive(r: seq<DayCount>) {
    forall i | 0 <= i < |r| :: r[i].count >= 1
  }

  function DaysOf(r: seq<DayCount>): set<int> {
    set i | 0 <= i < |r| :: r[i].day
  }

  /** The count recorded for day `d` (summed over entries, so 0 when there is none). */
  function CountOn(r: seq<DayCount>, d: int): nat {
    if r == [] then 0 else (if r[0].day == d then r[0].count else 0) + CountOn(r[1..], d)
  }

  function TotalCount(r: seq<DayCount>): nat {
    if r == [] then 0 else r[0].count + TotalCount(r[1..])
  }

  lemma DaysOfCons(e: DayCount, r: seq<DayCount>)
    ensures DaysOf([e] + r) == {e.day} + DaysOf(r)
  {
    var s := [e] + r;
    assert s[0].day in DaysOf(s);
    forall x | x in DaysOf(s) ensures x in {e.day} + DaysOf(r) {
      var i :| 0 <= i < |s| && s[i].day == x;
      if i > 0 { assert s[i] == r[i - 1]; assert r[i - 1].day in DaysOf(r); }
    }
    forall x | x in DaysOf(r) ensures x in DaysOf(s) {
      var i :| 0 <= i < |r| && r[i].day == x;
      assert s[i + 1] == r[i];
      assert s[i + 1].day in DaysOf(s);
    }
  }

  lemma AscendingTail(r: seq<DayCount>)
    requires r != [] && StrictlyAscending(r)
    ensures StrictlyAscending(r[1..])
    ensures forall x | x in DaysOf(r[1..]) :: r[0].day < x
  {
    var tail := r[1..];
    forall i, j | 0 <= i < j < |tail| ensures tail[i].day < tail[j].day {
      assert tail[i] == r[i + 1] && tail[j] == r[j + 1];
    }
    forall x | x in DaysOf(tail) ensures r[0].day < x {
      var i :| 0 <= i < |tail| && tail[i].day == x;
      assert tail[i] == r[i + 1];
    }
  }

  /** `e` goes before every entry of an ascending `r`: the result is ascending. */
  lemma AscendingCons(e: DayCount, r: seq<DayCount>)
    requires StrictlyAscending(r)
    requires forall x | x in DaysOf(r) :: e.day < x
    ensures StrictlyAscending([e] + r)
  {
    var s := [e] + r;
    forall i, j | 0 <= i < j < |s| ensures s[i].day < s[j].day {
      assert s[j] == r[j - 1];
      assert r[j - 1].day in DaysOf(r);
      if i > 0 { assert s[i] == r[i - 1]; }
    }
  }

  /** Adds one view on day `d`: a new entry before the first later day, or one more on its own day. */
  function Bump(r: seq<DayCount>, d: int): seq<DayCount> {
    if r == [] then [DayCount(d, 1)]
    else if d < r[0].day then [DayCount(d, 1)] + r
    else if d == r[0].day then [r[0].(count := r[0].count + 1)] + r[1..]
    else [r[0]] + Bump(r[1..], d)
  }

  /** Bumping adds `d` to the days and removes none. */
  lemma {:induction false} BumpDays(r: seq<DayCount>, d: int)
    ensures DaysOf(Bump(r, d)) == DaysOf(r) + {d}
  {
    var s := Bump(r, d);
    if r == [] {
      assert s == [s[0]] + [];
      DaysOfCons(s[0], []);
    } else {
      assert r == [r[0]] + r[1..];
      DaysOfCons(r[0], r[1..]);
      if d < r[0].day {
        assert s == [s[0]] + r;
        DaysOfCons(s[0], r);
      } else if d == r[0].day {
        assert s == [s[0]] + r[1..];
        DaysOfCons(s[0], r[1..]);
      } else {
        var rest := Bump(r[1..], d);
        BumpDays(r[1..], d);
        assert s == [r[0]] + rest;
        DaysOfCons(r[0], rest);
      }
    }
  }

  /** Bumping keeps the entries ascending by day and adds `d` to the days. */
  lemma {:induction false} BumpShape(r: seq<DayCount>, d: int)
    requires StrictlyAscending(r)
    ensures StrictlyAscending(Bump(r, d))
    ensures DaysOf(Bump(r, d)) == DaysOf(r) + {d}
  {
    BumpDays(r, d);
    if r != [] {
      var s := Bump(r, d);
      AscendingTail(r);
      if d < r[0].day {
        assert s == [s[0]] + r;
        assert r == [r[0]] + r[1..];
        DaysOfCons(r[0], r[1..]);
        AscendingCons(s[0], r);
      } else if d == r[0].day {
        assert s == [s[0]] + r[1..];
        AscendingCons(s[0], r[1..]);
      } else {
        var rest := Bump(r[1..], d);
        BumpShape(r[1..], d);
        assert s == [r[0]] + rest;
        AscendingCons(r[0], rest);
      }
    }
  }

  /** Bumping adds one view to day `d` and changes no other day. */
  lemma {:induction false} BumpCount(r: seq<DayCount>, d: int, e: int)
    ensures CountOn(Bump(r, d), e) == CountOn(r, e) + (if e == d then 1 else 0)
  {
    var s := Bump(r, d);
    if r == [] {
      assert s[1..] == [];
    } else if d < r[0].day {
      assert s[0] == DayCount(d, 1) && s[1..] == r;
    } else if d == r[0].day {
      assert s[1..] == r[1..];
    } else {
      BumpCount(r[1..], d, e);
      assert s[1..] == Bump(r[1..], d);
    }
  }

  /** Bumping adds exactly one to the total and creates no empty entry. */
  lemma {:induction false} BumpTotal(r: seq<DayCount>, d: int)
    ensures TotalCount(Bump(r, d)) == TotalCount(r) + 1
    ensures AllPositive(r) ==> AllPositive(Bump(r, d))
  {
    if r != [] && d > r[0].day {
      BumpTotal(r[1..], d);
      var s := Bump(r, d);
      assert s[1..] == Bump(r[1..], d);
      if AllPositive(r) {
        forall i | 0 <= i < |s| ensures s[i].count >= 1 {
          if i > 0 { assert s[i] == Bump(r[1..], d)[i - 1]; }
        }
      }
    } else if r != [] {
      var s := Bump(r, d);
      assert s[1..] == r[1..] || s[1..] == r;
    }
  }

  /** Groups days into ascending (day, count) entries. */
  function Tally(days: seq<int>): (r: seq<DayCount>)
    ensures StrictlyAscending(r) && AllPositive(r)
    ensures forall e :: CountOn(r, e) == multiset(days)[e]
    ensures TotalCount(r) == |days|
    ensures DaysOf(r) == set d | d in days
  {
    if days == [] then []
    else
      assert days == [days[0]] + days[1..];
      var rest := Tally(days[1..]);
      BumpShape(rest, days[0]);
      BumpTotal(rest, days[0]);
      assert forall e :: CountOn(Bump(rest, days[0]), e) == CountOn(rest, e) + (if e == days[0] then 1 else 0) by {
        forall e ensures CountOn(Bump(rest, days[0]), e) == CountOn(rest, e) + (if e == days[0] then 1 else 0) {
          BumpCount(rest, days[0], e);
        }
      }
      Bump(rest, days[0])
  }

  /** In an ascending tally, an entry's count is the count recorded for its day. */
  lemma {:induction false} CountOnEntry(r: seq<DayCount>, i: nat)
    requires StrictlyAscending(r) && i < |r|
    ensures CountOn(r, r[i].day) == r[i].count
  {
    var tail := r[1..];
    assert StrictlyAscending(tail) by {
      forall a, b | 0 <= a < b < |tail| ensures tail[a].day < tail[b].day {
        assert tail[a] == r[a + 1] && tail[b] == r[b + 1];
      }
    }
    if i == 0 {
      CountOnAbsent(tail, r[0].day);
    } else {
      assert tail[i - 1] == r[i];
      CountOnEntry(tail, i - 1);
    }
  }

  lemma {:induction false} CountOnAbsent(r: seq<DayCount>, d: int)
    requires forall k | 0 <= k < |r| :: r[k].day > d
    ensures CountOn(r, d) == 0
  {
    if r != [] {
      assert forall k | 0 <= k < |r[1..]| :: r[1..][k].day > d by {
        forall k | 0 <= k < |r[1..]| ensures r[1..][k].day > d {
          assert r[1..][k] == r[k + 1];
        }
      }
      CountOnAbsent(r[1..], d);
    }
  }

  /** The page views at or after `since`, in order. */
  function InWindow(pvs: seq<PageView>, since: Time): (w: seq<PageView>)
    ensures |w| <= |pvs|
    ensures forall p :: p in w <==> p in pvs && p.timestamp >= since
  {
    if pvs == [] then []
    else (if pvs[0].timestamp >= since then [pvs[0]] else []) + InWindow(pvs[1..], since)
  }

  /** Every view at or after `since` is kept as often as it occurs, and no other view is. */
  lemma {:induction false} InWindowCounts(pvs: seq<PageView>, since: Time)
    ensures forall p :: multiset(InWindow(pvs, since))[p] == if p.timestamp >= since then multiset(pvs)[p] else 0
  {
    if pvs != [] {
      assert pvs == [pvs[0]] + pvs[1..];
      InWindowCounts(pvs[1..], since);
    }
  }

  /** The window is taken view by view, so it keeps the table order. */
  lemma {:induction false} InWindowAppend(a: seq<PageView>, b: seq<PageView>, since: Time)
    ensures InWindow(a + b, since) == InWindow(a, since) + InWindow(b, since)
  {
    if a == [] {
      assert a + b == b;
    } else {
      assert (a + b)[0] == a[0] && (a + b)[1..] == a[1..] + b;
      InWindowAppend(a[1..], b, since);
    }
  }

  function DayList(w: seq<PageView>): (ds: seq<int>)
    ensures |ds| == |w|
    ensures forall i | 0 <= i < |w| :: ds[i] == Day(w[i].timestamp)
  {
    seq(|w|, i requires 0 <= i < |w| => Day(w[i].timestamp))
  }

  /** `daily_stats`: page views of the last 7 days, counted per UTC date, by ascending date. */
  function DailyStats(pvs: seq<PageView>, now: Time): (r: seq<DayCount>)
    ensures StrictlyAscending(r) && AllPositive(r)
    ensures TotalCount(r) == |InWindow(pvs, now - 7 * SecondsPerDay)|
  {
    Tally(DayList(InWindow(pvs, now - 7 * SecondsPerDay)))
  }

  /**
   * One entry per day, days strictly ascending, each count the number of
   * last-7-day views on that day, no entry without a view, and the counts
   * summing to the number of last-7-day views.
   */
  lemma DailyStatsCorrect(pvs: seq<PageView>, now: Time)
    ensures var r := DailyStats(pvs, now);
            var w := InWindow(pvs, now - 7 * SecondsPerDay);
            StrictlyAscending(r) && AllPositive(r)
            && (forall i | 0 <= i < |r| :: r[i].count == multiset(DayList(w))[r[i].day])
            && TotalCount(r) == |w|
            && (forall p | p in w :: Day(p.timestamp) in DaysOf(r))
            && (forall p | p in w :: p.timestamp >= now - 7 * SecondsPerDay)
  {
    var w := InWindow(pvs, now - 7 * SecondsPerDay);
    var r := DailyStats(pvs, now);
    forall i | 0 <= i < |r| ensures r[i].count == multiset(DayList(w))[r[i].day] {
      CountOnEntry(r, i);
    }
    forall p | p in w ensures Day(p.timestamp) in DaysOf(r) {
      var k :| 0 <= k < |w| && w[k] == p;
      assert DayList(w)[k] in DayList(w);
    }
  }

  // ---------------------------------------------------------------------------
  // Dashboard: top five paths
  // ---------------------------------------------------------------------------

  datatype PathCount = PathCount(path: string, views: nat)

  function ViewsKey(g: PathCount): int { g.views }
  function PathKey(g: PathCount): string { g.path }

  /** The path of every page view, in order. */
  function PathList(pvs: seq<PageView>): (ps: seq<string>)
    ensures |ps| == |pvs|
    ensures forall i | 0 <= i < |pvs| :: ps[i] == pvs[i].path
  {
    seq(|pvs|, i requires 0 <= i < |pvs| => pvs[i].path)
  }

  /** The views recorded for path `q` (summed over entries, so 0 when there is none). */
  function ViewsOf(gs: seq<PathCount>, q: string): nat {
    if gs == [] then 0 else (if gs[0].path == q then gs[0].views else 0) + ViewsOf(gs[1..], q)
  }

  function PathSet(gs: seq<PathCount>): set<string> {
    set i | 0 <= i < |gs| :: gs[i].path
  }

  predicate PositiveViews(gs: seq<PathCount>) {
    forall i | 0 <= i < |gs| :: gs[i].views >= 1
  }

  lemma PathSetCons(g: PathCount, gs: seq<PathCount>)
    ensures PathSet([g] + gs) == {g.path} + PathSet(gs)
  {
    var r := [g] + gs;
    assert r[0].path in PathSet(r);
    forall e | e in PathSet(r) ensures e in {g.path} + PathSet(gs) {
      var i :| 0 <= i < |r| && r[i].path == e;
      if i > 0 { assert r[i] == gs[i - 1]; assert gs[i - 1].path in PathSet(gs); }
    }
    forall e | e in PathSet(gs) ensures e in PathSet(r) {
      var i :| 0 <= i < |gs| && gs[i].path == e;
      assert r[i + 1] == gs[i];
      assert r[i + 1].path in PathSet(r);
    }
  }

  /** Counts one more view of `p`, appending an entry for a path not seen yet. */
  function AddPath(gs: seq<PathCount>, p: string): (r: seq<PathCount>)
    ensures forall q :: ViewsOf(r, q) == ViewsOf(gs, q) + (if q == p then 1 else 0)
    ensures PathSet(r) == PathSet(gs) + {p}
    ensures PositiveViews(gs) ==> PositiveViews(r)
  {
    if gs == [] then
      var r := [PathCount(p, 1)];
      PathSetCons(r[0], []);
      assert r == [r[0]] + [];
      r
    else if gs[0].path == p then
      var r := [gs[0].(views := gs[0].views + 1)] + gs[1..];
      assert r[1..] == gs[1..];
      assert gs == [gs[0]] + gs[1..];
      PathSetCons(r[0], gs[1..]);
      PathSetCons(gs[0], gs[1..]);
      r
    else
      var rest := AddPath(gs[1..], p);
      var r := [gs[0]] + rest;
      assert r[1..] == rest;
      assert gs == [gs[0]] + gs[1..];
      PathSetCons(gs[0], rest);
      PathSetCons(gs[0], gs[1..]);
      r
  }

  lemma DistinctTail(gs: seq<PathCount>)
    requires gs != [] && Ordering.DistinctBy(gs, PathKey)
    ensures Ordering.DistinctBy(gs[1..], PathKey)
    ensures gs[0].path !in PathSet(gs[1..])
  {
    var tail := gs[1..];
    forall i, j | 0 <= i < j < |tail| ensures PathKey(tail[i]) != PathKey(tail[j]) {
      assert tail[i] == gs[i + 1] && tail[j] == gs[j + 1];
    }
    forall k | 0 <= k < |tail| ensures tail[k].path != gs[0].path {
      assert tail[k] == gs[k + 1];
      assert PathKey(gs[0]) != PathKey(gs[k + 1]);
    }
  }

  lemma {:induction false} AddPathDistinct(gs: seq<PathCount>, p: string)
    requires Ordering.DistinctBy(gs, PathKey)
    ensures Ordering.DistinctBy(AddPath(gs, p), PathKey)
  {
    var r := AddPath(gs, p);
    if gs != [] && gs[0].path == p {
      forall i, j | 0 <= i < j < |r| ensures PathKey(r[i]) != PathKey(r[j]) {
        assert r[j] == gs[j];
        if i > 0 { assert r[i] == gs[i]; } else { assert PathKey(r[0]) == PathKey(gs[0]); }
      }
    } else if gs != [] {
      DistinctTail(gs);
      AddPathDistinct(gs[1..], p);
      var rest := AddPath(gs[1..], p);
      assert r == [gs[0]] + rest;
      forall i, j | 0 <= i < j < |r| ensures PathKey(r[i]) != PathKey(r[j]) {
        assert r[j] == rest[j - 1];
        assert rest[j - 1].path in PathSet(rest);
        if i > 0 { assert r[i] == rest[i - 1]; }
      }
    }
  }

  lemma {:induction false} ViewsOfAbsent(gs: seq<PathCount>, q: string)
    requires q !in PathSet(gs)
    ensures ViewsOf(gs, q) == 0
  {
    if gs != [] {
      assert gs == [gs[0]] + gs[1..];
      PathSetCons(gs[0], gs[1..]);
      ViewsOfAbsent(gs[1..], q);
    }
  }

  /** With distinct paths, an entry's views are the views recorded for its path. */
  lemma {:induction false} ViewsOfEntry(gs: seq<PathCount>, i: nat)
    requires Ordering.DistinctBy(gs, PathKey) && i < |gs|
    ensures ViewsOf(gs, gs[i].path) == gs[i].views
  {
    DistinctTail(gs);
    if i == 0 {
      ViewsOfAbsent(gs[1..], gs[0].path);
    } else {
      assert gs[1..][i - 1] == gs[i];
      assert PathKey(gs[0]) != PathKey(gs[i]);
      ViewsOfEntry(gs[1..], i - 1);
    }
  }

  /** Groups the paths into (path, views) entries, in order of first appearance. */
  function GroupPaths(paths: seq<string>): (r: seq<PathCount>)
    ensures forall q :: ViewsOf(r, q) == multiset(paths)[q]
    ensures PathSet(r) == set q | q in paths
    ensures PositiveViews(r)
  {
    if paths == [] then []
    else
      var init := paths[..|paths| - 1];
      var last := paths[|paths| - 1];
      assert paths == init + [last];
      AddPath(GroupPaths(init), last)
  }

  lemma {:induction false} GroupPathsDistinct(paths: seq<string>)
    ensures Ordering.DistinctBy(GroupPaths(paths), PathKey)
  {
    if paths != [] {
      var init := paths[..|paths| - 1];
      assert paths == init + [paths[|paths| - 1]];
      GroupPathsDistinct(init);
      AddPathDistinct(GroupPaths(init), paths[|paths| - 1]);
    }
  }

  const TopPageCount: nat := 5

  /** `top_pages`: the five most viewed paths with their view counts, most viewed first. */
  function TopPages(pvs: seq<PageView>): (top: seq<PathCount>)
    ensures |top| <= TopPageCount
  {
    var sorted := Ordering.SortDesc(GroupPaths(PathList(pvs)), ViewsKey);
    if |sorted| <= TopPageCount then sorted else sorted[..TopPageCount]
  }

  /** `top` shows a page for path `p`. */
  predicate Shown(top: seq<PathCount>, p: string) {
    exists k | 0 <= k < |top| :: top[k].path == p
  }

  /** Any arrangement of the grouped entries carries the right count on every entry. */
  lemma EntriesCounted(gs: seq<PathCount>, xs: seq<PathCount>, paths: seq<string>)
    requires Ordering.DistinctBy(gs, PathKey) && PositiveViews(gs)
    requires forall q :: ViewsOf(gs, q) == multiset(paths)[q]
    requires multiset(xs) == multiset(gs)
    ensures forall i | 0 <= i < |xs| :: xs[i].views == multiset(paths)[xs[i].path] && xs[i].views >= 1
  {
    forall i | 0 <= i < |xs| ensures xs[i].views == multiset(paths)[xs[i].path] && xs[i].views >= 1 {
      assert xs[i] in multiset(gs);
      var m :| 0 <= m < |gs| && gs[m] == xs[i];
      ViewsOfEntry(gs, m);
    }
  }

  /** Cutting a sorted list after five entries leaves nothing out that beats the last kept entry. */
  lemma OmittedBounded(gs: seq<PathCount>, sorted: seq<PathCount>, top: seq<PathCount>, paths: seq<string>)
    requires Ordering.SortedDesc(sorted, ViewsKey) && multiset(sorted) == multiset(gs)
    requires PathSet(gs) == set q | q in paths
    requires forall i | 0 <= i < |sorted| :: sorted[i].views == multiset(paths)[sorted[i].path]
    requires top == (if |sorted| <= TopPageCount then sorted else sorted[..TopPageCount])
    ensures forall p | p in paths ::
              Shown(top, p) || (|top| == TopPageCount && multiset(paths)[p] <= top[TopPageCount - 1].views)
  {
    forall p | p in paths
      ensures Shown(top, p) || (|top| == TopPageCount && multiset(paths)[p] <= top[TopPageCount - 1].views)
    {
      assert p in PathSet(gs);
      var m :| 0 <= m < |gs| && gs[m].path == p;
      assert gs[m] in multiset(sorted);
      var j :| 0 <= j < |sorted| && sorted[j] == gs[m];
      if j < |top| {
        assert top[j] == sorted[j];
      } else {
        assert top[|top| - 1] == sorted[|top| - 1];
        assert ViewsKey(sorted[|top| - 1]) >= ViewsKey(sorted[j]);
      }
    }
  }

  /**
   * At most five entries, distinct paths, non-increasing counts, each count the
   * number of page views of that path, and no path left out with more views
   * than the last entry shown.
   */
  lemma TopPagesCorrect(pvs: seq<PageView>)
    ensures var top := TopPages(pvs);
            var paths := PathList(pvs);
            |top| <= TopPageCount
            && (forall i, j | 0 <= i < j < |top| :: top[i].path != top[j].path)
            && (forall i, j | 0 <= i < j < |top| :: top[i].views >= top[j].views)
            && (forall i | 0 <= i < |top| :: top[i].views == multiset(paths)[top[i].path] && top[i].views >= 1)
            && (forall p | p in paths ::
                  Shown(top, p) || (|top| == TopPageCount && multiset(paths)[p] <= top[TopPageCount - 1].views))
  {
    var paths := PathList(pvs);
    var gs := GroupPaths(paths);
    GroupPathsDistinct(paths);
    var sorted := Ordering.SortDesc(gs, ViewsKey);
    Ordering.SortDescDistinct(gs, ViewsKey, PathKey);
    TopOfSorted(gs, sorted, TopPages(pvs), paths);
  }

  /** The first five of the grouped entries, sorted by views, have every property of the top pages. */
  lemma TopOfSorted(gs: seq<PathCount>, sorted: seq<PathCount>, top: seq<PathCount>, paths: seq<string>)
    requires Ordering.DistinctBy(gs, PathKey) && PositiveViews(gs)
    requires forall q :: ViewsOf(gs, q) == multiset(paths)[q]
    requires PathSet(gs) == set q | q in paths
    requires multiset(sorted) == multiset(gs)
    requires Ordering.SortedDesc(sorted, ViewsKey) && Ordering.DistinctBy(sorted, PathKey)
    requires top == (if |sorted| <= TopPageCount then sorted else sorted[..TopPageCount])
    ensures |top| <= TopPageCount
    ensures forall i, j | 0 <= i < j < |top| :: top[i].path != top[j].path
    ensures forall i, j | 0 <= i < j < |top| :: top[i].views >= top[j].views
    ensures forall i | 0 <= i < |top| :: top[i].views == multiset(paths)[top[i].path] && top[i].views >= 1
    ensures forall p | p in paths ::
              Shown(top, p) || (|top| == TopPageCount && multiset(paths)[p] <= top[TopPageCount - 1].views)
  {
    EntriesCounted(gs, sorted, paths);
    OmittedBounded(gs, sorted, top, paths);
    assert forall i | 0 <= i < |top| :: top[i] == sorted[i];
    PrefixKeepsOrder(sorted, top);
  }

  /** A prefix of a list sorted by views, with distinct paths, keeps both properties. */
  lemma PrefixKeepsOrder(sorted: seq<PathCount>, top: seq<PathCount>)
    requires Ordering.SortedDesc(sorted, ViewsKey) && Ordering.DistinctBy(sorted, PathKey)
    requires |top| <= |sorted| && forall i | 0 <= i < |top| :: top[i] == sorted[i]
    ensures forall i, j | 0 <= i < j < |top| :: top[i].path != top[j].path
    ensures forall i, j | 0 <= i < j < |top| :: top[i].views >= top[j].views
  {
    forall i, j | 0 <= i < j < |top| ensures top[i].views >= top[j].views && top[i].path != top[j].path {
      assert ViewsKey(sorted[i]) >= ViewsKey(sorted[j]);
      assert PathKey(sorted[i]) != PathKey(sorted[j]);
    }
  }

  // ---------------------------------------------------------------------------
  // Dashboard response and the visitor list
  // ---------------------------------------------------------------------------

  datatype Dashboard = Dashboard(overview: Overview, dailyStats: seq<DayCount>, topPages: seq<PathCount>)

  /** `AnalyticsDashboardView.get`. */
  function DashboardOf(vs: map<Uuid, Visitor>, pvs: seq<PageView>, now: Time): (d: Dashboard)
    ensures d.overview.totalVisitors == |vs| && d.overview.totalPageviews == |pvs|
    ensures d.overview.activeToday <= d.overview.totalVisitors
    ensures TotalCount(d.dailyStats) <= |pvs|
    ensures |d.topPages| <= TopPageCount
  {
    DailyStatsCorrect(pvs, now);
    Dashboard(OverviewOf(vs, pvs, now), DailyStats(pvs, now), TopPages(pvs))
  }

  /** The last-visit time of a visitor id, as the ordering key of the visitor list. */
  function LastVisitOf(vs: map<Uuid, Visitor>): Uuid -> int {
    (id: Uuid) => if id in vs then vs[id].lastVisit else 0
  }

  /**
   * `VisitorListView`: the table's rows, given in the order the database scans
   * them, ordered by last visit, most recent first.
   */
  function VisitorList(vs: map<Uuid, Visitor>, scan: seq<Uuid>): (r: seq<Uuid>)
    requires forall k | 0 <= k < |scan| :: scan[k] in vs
    ensures multiset(r) == multiset(scan)
    ensures forall i | 0 <= i < |r| :: r[i] in vs
    ensures forall i, j | 0 <= i < j < |r| :: vs[r[i]].lastVisit >= vs[r[j]].lastVisit
  {
    var r := Ordering.SortDesc(scan, LastVisitOf(vs));
    assert forall i | 0 <= i < |r| :: r[i] in vs by {
      forall i | 0 <= i < |r| ensures r[i] in vs {
        assert r[i] in multiset(scan);
        var k :| 0 <= k < |scan| && scan[k] == r[i];
      }
    }
    r
  }
}

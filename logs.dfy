// The log query of server/routes/logs.js (served again, identically, as
// `/logs` in server/routes/admin.js:145-168): optional filters on type,
// category and an inclusive timestamp range, newest first, at most `limit`
// entries. Timestamps are milliseconds; turning the query-string dates into
// numbers is outside the model.

module Logs {
  import opened Wrappers
  import opened Seqs

  /** A Log document (Log.js:3-25); `details` is free-form and left out. */
  datatype LogEntry = LogEntry(id: Id, kind: string, category: string, message: string, timestamp: int)

  /** What the schema's enums and `required` admit. */
  predicate ValidLog(e: LogEntry) {
    (e.kind == "error" || e.kind == "warning" || e.kind == "info")
    && (e.category == "auth" || e.category == "admin" || e.category == "system" || e.category == "user")
    && e.message != ""
  }

  /**
   * `req.query`: an absent or empty `type`/`category` is ""; a date is its
   * millisecond value when given; `limit` is `parseInt`'s result, None for NaN.
   */
  datatype LogParams = LogParams(kind: string, category: string, startDate: Option<int>, endDate: Option<int>,
                                 limit: Option<int>)

  /** The Mongo filter document: each field present only when the route set it. */
  datatype Query = Query(kind: Option<string>, category: Option<string>, from: Option<int>, to: Option<int>)

  /** Whether a log satisfies the filter (`$gte` and `$lte` are inclusive). */
  predicate Selects(q: Query, e: LogEntry) {
    (q.kind.None? || e.kind == q.kind.value)
    && (q.category.None? || e.category == q.category.value)
    && (q.from.None? || e.timestamp >= q.from.value)
    && (q.to.None? || e.timestamp <= q.to.value)
  }

  /** The filter the route builds, as a value. */
  function QueryOf(p: LogParams): Query {
    Query(if p.kind == "" then None else Some(p.kind),
          if p.category == "" then None else Some(p.category),
          p.startDate, p.endDate)
  }

  /** logs.js:11-19: start from `{}` and set each field whose parameter is given. */
  method BuildQuery(p: LogParams) returns (q: Query)
    ensures q == QueryOf(p)
    ensures forall e :: Selects(q, e) <==> Wanted(p, e)
  {
    q := Query(None, None, None, None);
    if p.kind != "" {
      q := q.(kind := Some(p.kind));
    }
    if p.category != "" {
      q := q.(category := Some(p.category));
    }
    if p.startDate.Some? || p.endDate.Some? {
      if p.startDate.Some? {
        q := q.(from := p.startDate);
      }
      if p.endDate.Some? {
        q := q.(to := p.endDate);
      }
    }
  }

  /** The entries the parameters ask for, stated on the parameters themselves. */
  predicate Wanted(p: LogParams, e: LogEntry) {
    (p.kind == "" || e.kind == p.kind)
    && (p.category == "" || e.category == p.category)
    && (p.startDate.None? || p.startDate.value <= e.timestamp)
    && (p.endDate.None? || e.timestamp <= p.endDate.value)
  }

  function Filter(logs: seq<LogEntry>, q: Query): (r: seq<LogEntry>)
    ensures forall e :: e in r <==> e in logs && Selects(q, e)
    ensures |r| <= |logs|
    ensures (forall i :: 0 <= i < |logs| ==> !Selects(q, logs[i])) ==> r == []
  {
    if |logs| == 0 then []
    else
      var last := logs[|logs| - 1];
      assert forall e :: e in logs <==> e in logs[..|logs| - 1] || e == last by {
        assert logs == logs[..|logs| - 1] + [last];
      }
      Filter(logs[..|logs| - 1], q) + (if Selects(q, last) then [last] else [])
  }

  /**
   * `parseInt(limit) || 100`: NaN and 0 fall back to 100. The driver treats a
   * negative limit as its absolute value returned in a single batch.
   */
  function EffectiveLimit(limit: Option<int>): (n: nat)
    ensures n > 0
    ensures limit.None? || limit.value == 0 ==> n == 100
    ensures limit.Some? && limit.value > 0 ==> n == limit.value
  {
    if limit.None? || limit.value == 0 then 100
    else if limit.value < 0 then -limit.value
    else limit.value
  }

  function Timestamp(e: LogEntry): int { e.timestamp }

  /** logs.js:21-23: `find(query).sort({ timestamp: -1 }).limit(...)`. */
  function Find(logs: seq<LogEntry>, p: LogParams): seq<LogEntry> {
    Take(SortDesc(Filter(logs, QueryOf(p)), Timestamp), EffectiveLimit(p.limit))
  }

  /** Every entry returned is stored and asked for; they come newest first; there are at most `limit` of them. */
  lemma FindSound(logs: seq<LogEntry>, p: LogParams)
    ensures var r := Find(logs, p);
      && (forall e :: e in r ==> e in logs && Wanted(p, e))
      && SortedDesc(r, Timestamp)
      && |r| <= EffectiveLimit(p.limit)
  {
    var s := SortDesc(Filter(logs, QueryOf(p)), Timestamp);
    var r := Find(logs, p);
    forall e | e in r ensures e in logs && Wanted(p, e) {
      assert e in multiset(s);
    }
    forall i, j | 0 <= i < j < |r| ensures Timestamp(r[i]) >= Timestamp(r[j]) {
      assert r[i] == s[i] && r[j] == s[j];
    }
  }

  /**
   * Nothing newer is left out: an entry asked for but not returned means
   * the limit was reached, and it is no newer than any entry returned.
   */
  lemma FindKeepsNewest(logs: seq<LogEntry>, p: LogParams, e: LogEntry)
    requires e in logs && Wanted(p, e) && e !in Find(logs, p)
    ensures var r := Find(logs, p);
      |r| == EffectiveLimit(p.limit) && forall k :: 0 <= k < |r| ==> r[k].timestamp >= e.timestamp
  {
    var f := Filter(logs, QueryOf(p));
    var s := SortDesc(f, Timestamp);
    var r := Find(logs, p);
    assert e in multiset(f);
    assert e in s;
    var j :| 0 <= j < |s| && s[j] == e;
    if j < |r| {
      assert false;
    }
    forall k | 0 <= k < |r| ensures r[k].timestamp >= e.timestamp {
      assert r[k] == s[k];
    }
  }

  /** A type outside the schema's enum matches no valid log. */
  lemma UnknownTypeFindsNothing(logs: seq<LogEntry>, p: LogParams)
    requires forall i :: 0 <= i < |logs| ==> ValidLog(logs[i])
    requires p.kind != "" && p.kind != "error" && p.kind != "warning" && p.kind != "info"
    ensures Find(logs, p) == []
  {
  }

  /** When no more than `limit` entries match, every one of them is returned. */
  lemma FindComplete(logs: seq<LogEntry>, p: LogParams)
    requires |Filter(logs, QueryOf(p))| <= EffectiveLimit(p.limit)
    ensures forall e :: e in logs && Wanted(p, e) ==> e in Find(logs, p)
  {
    var f := Filter(logs, QueryOf(p));
    var s := SortDesc(f, Timestamp);
    assert |s| == |multiset(s)| == |f|;
    forall e | e in logs && Wanted(p, e) ensures e in Find(logs, p) {
      assert e in multiset(f);
      assert e in s;
    }
  }
}

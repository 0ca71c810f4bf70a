/** Last known readings: reducing stored rows to the latest value per field, and listing them by peripheral. */
module Readings {
  import opened Wrappers
  import opened Addressing

  const SECOND: int := 1_000_000_000
  const LOOKBACKS: seq<int> := [30 * 60 * SECOND, 7 * 24 * 3600 * SECOND]
  const MAX_ROWS: nat := 200

  /** The zero instant, in nanoseconds relative to 1970. */
  const ZERO_TIME: int := -62135596800 * SECOND

  const RESERVED := {"time", "device_id", "user_id"}

  /** A column value of a query result. `Other` stands for every type the reduction does not support. */
  datatype Cell = Instant(t: int) | Float(f: real) | Boolean(b: bool) | Text(s: string) | Null | Other

  type Row = map<string, Cell>

  datatype Value = Number(f: real) | Bit(n: int) | Words(s: string)

  datatype Point = Point(timestamp: int, values: map<string, Value>)

  function Coerced(c: Cell): Option<Value> {
    match c
    case Float(f) => Some(Number(f))
    case Boolean(b) => Some(Bit(if b then 1 else 0))
    case Text(s) => Some(Words(s))
    case _ => None
  }

  /** The supported value of a field in a row, if there is one. */
  function ValueIn(row: Row, field: string): Option<Value> {
    if field in row then Coerced(row[field]) else None
  }

  function TimeOf(row: Row): int {
    if "time" in row && row["time"].Instant? then row["time"].t else ZERO_TIME
  }

  // ---- The latest value of every field ----------------------------------------------------------

  /** Row `i` is the first that has a supported value for the field. */
  predicate IsFirst(rows: seq<Row>, field: string, i: nat) {
    i < |rows| && ValueIn(rows[i], field).Some? && forall j | 0 <= j < i :: ValueIn(rows[j], field).None?
  }

  ghost predicate Never(rows: seq<Row>, field: string) {
    forall i | 0 <= i < |rows| :: ValueIn(rows[i], field).None?
  }

  /** The values a reduction of `rows` must hold: for each field that is not reserved its first supported value. */
  ghost predicate HoldsFirst(rows: seq<Row>, values: map<string, Value>) {
    && (forall field | field in values ::
          field !in RESERVED && exists i: nat :: IsFirst(rows, field, i) && ValueIn(rows[i], field) == Some(values[field]))
    && (forall field | field !in values :: field in RESERVED || Never(rows, field))
  }

  /** The first time that is not the zero instant. */
  ghost predicate IsFirstTime(rows: seq<Row>, t: int) {
    || (t == ZERO_TIME && forall i | 0 <= i < |rows| :: TimeOf(rows[i]) == ZERO_TIME)
    || (exists i :: 0 <= i < |rows| && TimeOf(rows[i]) == t != ZERO_TIME && forall j | 0 <= j < i :: TimeOf(rows[j]) == ZERO_TIME)
  }

  ghost predicate IsReduction(rows: seq<Row>, p: Option<Point>) {
    match p
    case None => HoldsFirst(rows, map[])
    case Some(point) => point.values != map[] && HoldsFirst(rows, point.values) && IsFirstTime(rows, point.timestamp)
  }

  /** What one more row adds to the values seen so far, as far as its fields in `done` are concerned. */
  ghost predicate Merged(before: map<string, Value>, row: Row, done: set<string>, after: map<string, Value>) {
    && (forall field | field in before :: field in after && after[field] == before[field])
    && (forall field | field in after && field !in before ::
          field in done && field !in RESERVED && ValueIn(row, field) == Some(after[field]))
    && (forall field | field in done && field !in RESERVED && field !in after :: ValueIn(row, field).None?)
  }

  lemma MergeStep(before: map<string, Value>, row: Row, done: set<string>, values: map<string, Value>, k: string)
    requires Merged(before, row, done, values) && k in row
    ensures var value := ValueIn(row, k);
            Merged(before, row, done + {k}, if k !in RESERVED && k !in values && value.Some? then values[k := value.value] else values)
  {
  }

  lemma FirstExtends(rows: seq<Row>, row: Row, field: string)
    ensures forall i: nat | IsFirst(rows, field, i) :: IsFirst(rows + [row], field, i)
    ensures Never(rows, field) && ValueIn(row, field).Some? ==> IsFirst(rows + [row], field, |rows|)
    ensures Never(rows, field) && ValueIn(row, field).None? ==> Never(rows + [row], field)
  {
  }

  lemma MergedHoldsFirst(rows: seq<Row>, row: Row, before: map<string, Value>, after: map<string, Value>)
    requires HoldsFirst(rows, before) && Merged(before, row, row.Keys, after)
    ensures HoldsFirst(rows + [row], after)
  {
    forall field | field in after
      ensures field !in RESERVED && exists i: nat :: IsFirst(rows + [row], field, i) && ValueIn((rows + [row])[i], field) == Some(after[field])
    {
      FirstExtends(rows, row, field);
      if field in before {
        var i: nat :| IsFirst(rows, field, i) && ValueIn(rows[i], field) == Some(before[field]);
        assert IsFirst(rows + [row], field, i);
      } else {
        assert IsFirst(rows + [row], field, |rows|);
      }
    }
    forall field | field !in after ensures field in RESERVED || Never(rows + [row], field) {
      FirstExtends(rows, row, field);
    }
  }

  lemma FirstTimeExtends(rows: seq<Row>, row: Row, t: int)
    requires IsFirstTime(rows, t)
    ensures IsFirstTime(rows + [row], if t == ZERO_TIME then TimeOf(row) else t)
  {
    var rows' := rows + [row];
    if t != ZERO_TIME {
      var i :| 0 <= i < |rows| && TimeOf(rows[i]) == t && forall j | 0 <= j < i :: TimeOf(rows[j]) == ZERO_TIME;
      assert TimeOf(rows'[i]) == t;
    } else if TimeOf(row) != ZERO_TIME {
      assert TimeOf(rows'[|rows|]) == TimeOf(row);
    }
  }

  /** Adds what `row` holds for fields not seen before; its fields are visited in any order. */
  method CaptureRow(row: Row, seen: map<string, Value>) returns (values: map<string, Value>)
    ensures Merged(seen, row, row.Keys, values)
  {
    values := seen;
    var left := row.Keys;
    ghost var done: set<string> := {};
    while left != {}
      invariant left !! done && left + done == row.Keys
      invariant Merged(seen, row, done, values)
      decreases |left|
    {
      var k :| k in left;
      MergeStep(seen, row, done, values, k);
      left, done := left - {k}, done + {k};
      if k !in RESERVED && k !in values {
        match row[k] {
          case Float(f) => values := values[k := Number(f)];
          case Boolean(b) =>
            if b {
              values := values[k := Bit(1)];
            } else {
              values := values[k := Bit(0)];
            }
          case Text(s) => values := values[k := Words(s)];
          case _ =>
        }
      }
    }
    assert done == row.Keys;
  }

  method ReduceLatest(rows: seq<Row>) returns (p: Option<Point>)
    ensures IsReduction(rows, p)
  {
    var timestamp, values := ZERO_TIME, map[];
    for i := 0 to |rows|
      invariant HoldsFirst(rows[..i], values) && IsFirstTime(rows[..i], timestamp)
    {
      var row := rows[i];
      assert rows[..i + 1] == rows[..i] + [row];
      FirstTimeExtends(rows[..i], row, timestamp);
      if timestamp == ZERO_TIME {
        if "time" in row && row["time"].Instant? {
          timestamp := row["time"].t;
        }
      }
      var captured := CaptureRow(row, values);
      MergedHoldsFirst(rows[..i], row, values, captured);
      values := captured;
    }
    assert rows[..|rows|] == rows;
    return if values == map[] then None else Some(Point(timestamp, values));
  }

  lemma OneFirst(rows: seq<Row>, field: string, i: nat, j: nat)
    requires IsFirst(rows, field, i) && IsFirst(rows, field, j)
    ensures i == j
  {
  }

  /** The reduction is determined by the rows, whatever the order in which fields are visited. */
  lemma OneReduction(rows: seq<Row>, p: Option<Point>, q: Option<Point>)
    requires IsReduction(rows, p) && IsReduction(rows, q)
    ensures p == q
  {
    assert rows + [] == rows;
    PrefixReduction(rows, [], p, q);
    PrefixReduction(rows, [], q, p);
    if p.Some? {
      MutualSubPoints(p.value, q.value);
      OneFirstTime(rows, p.value.timestamp, q.value.timestamp);
    }
  }

  lemma MutualSubPoints(p: Point, q: Point)
    requires SubPoint(p, q) && SubPoint(q, p)
    ensures p.values == q.values
  {
  }

  lemma OneFirstTime(rows: seq<Row>, t: int, t': int)
    requires IsFirstTime(rows, t) && IsFirstTime(rows, t')
    ensures t == t'
  {
  }

  predicate SubPoint(p: Point, q: Point) {
    forall field | field in p.values :: field in q.values && q.values[field] == p.values[field]
  }

  /** The reduction of newer rows alone is part of the reduction with older rows, and has its timestamp if it has one. */
  lemma PrefixReduction(rows: seq<Row>, more: seq<Row>, p: Option<Point>, q: Option<Point>)
    requires IsReduction(rows, p) && IsReduction(rows + more, q)
    ensures p.Some? ==> q.Some? && SubPoint(p.value, q.value)
    ensures p.Some? && p.value.timestamp != ZERO_TIME ==> q.value.timestamp == p.value.timestamp
  {
    var all := rows + more;
    if p.Some? {
      var held := if q.Some? then q.value.values else map[];
      forall field | field in p.value.values ensures field in held && held[field] == p.value.values[field] {
        var i: nat :| IsFirst(rows, field, i) && ValueIn(rows[i], field) == Some(p.value.values[field]);
        assert IsFirst(all, field, i);
        assert !Never(all, field) && field in held;
        var j: nat :| IsFirst(all, field, j) && ValueIn(all[j], field) == Some(held[field]);
        OneFirst(all, field, i, j);
      }
      var field :| field in p.value.values;
      if p.value.timestamp != ZERO_TIME {
        var i :| 0 <= i < |rows| && TimeOf(rows[i]) == p.value.timestamp && forall j | 0 <= j < i :: TimeOf(rows[j]) == ZERO_TIME;
        assert TimeOf(all[i]) == p.value.timestamp;
        assert IsFirstTime(all, p.value.timestamp);
        OneFirstTime(all, p.value.timestamp, q.value.timestamp);
      }
    }
  }

  /** On rows ordered newest first, the value held for a field is the one of its newest row. */
  lemma ReductionIsLatest(rows: seq<Row>, p: Option<Point>, i: nat, field: string)
    requires IsReduction(rows, p) && NewestFirst(rows)
    requires i < |rows| && field !in RESERVED && ValueIn(rows[i], field).Some?
    ensures p.Some? && field in p.value.values
    ensures exists j :: 0 <= j <= i && ValueIn(rows[j], field) == Some(p.value.values[field])
                        && forall k | 0 <= k < |rows| && ValueIn(rows[k], field).Some? :: TimeOf(rows[k]) <= TimeOf(rows[j])
  {
    assert !Never(rows, field);
    var j: nat :| IsFirst(rows, field, j) && ValueIn(rows[j], field) == Some(p.value.values[field]);
    assert j <= i;
    FirstIsNewest(rows, field, j);
  }

  lemma FirstIsNewest(rows: seq<Row>, field: string, j: nat)
    requires NewestFirst(rows) && IsFirst(rows, field, j)
    ensures forall k | 0 <= k < |rows| && ValueIn(rows[k], field).Some? :: TimeOf(rows[k]) <= TimeOf(rows[j])
  {
    forall k | 0 <= k < |rows| && ValueIn(rows[k], field).Some? ensures TimeOf(rows[k]) <= TimeOf(rows[j]) {
      assert k >= j;
    }
  }

  /**
   * A value of the reduction tells what the field's first supported cell was: a number is the float itself, one and
   * zero are true and false, and words are the text itself.
   */
  lemma ValueTells(rows: seq<Row>, p: Option<Point>, field: string, i: nat)
    requires IsReduction(rows, p) && i < |rows| && field in rows[i] && field !in RESERVED
    requires forall j | 0 <= j < i && field in rows[j] :: rows[j][field].Instant? || rows[j][field].Null? || rows[j][field].Other?
    requires rows[i][field].Float? || rows[i][field].Boolean? || rows[i][field].Text?
    ensures p.Some? && field in p.value.values
    ensures match rows[i][field]
            case Float(f) => p.value.values[field] == Number(f)
            case Boolean(b) => p.value.values[field] == (if b == true then Bit(1) else Bit(0))
            case Text(s) => p.value.values[field] == Words(s)
            case _ => false
  {
    assert IsFirst(rows, field, i) && !Never(rows, field);
    var values := match p case Some(point) => point.values case None => map[];
    assert field in values;
    var j: nat :| IsFirst(rows, field, j) && ValueIn(rows[j], field) == Some(values[field]);
    OneFirst(rows, field, i, j);
  }

  /** Nothing else is in it: a field without a float, a boolean or a text in any row, or a reserved one, has no value. */
  lemma NothingElse(rows: seq<Row>, p: Point, field: string)
    requires IsReduction(rows, Some(p))
    requires field == "time" || field == "device_id" || field == "user_id"
             || forall i | 0 <= i < |rows| && field in rows[i] :: rows[i][field].Instant? || rows[i][field].Null? || rows[i][field].Other?
    ensures field !in p.values
  {
  }

  // ---- Tiered lookback --------------------------------------------------------------------------

  ghost predicate NewestFirst(rows: seq<Row>) {
    forall i, j | 0 <= i < j < |rows| :: TimeOf(rows[i]) > TimeOf(rows[j])
  }

  /** A device's points have distinct times: a second write at one time would replace the first. */
  ghost predicate DistinctTimes(points: set<Row>) {
    forall p, q | p in points && q in points && TimeOf(p) == TimeOf(q) :: p == q
  }

  /** The lower time bound of a query, which is formatted in whole seconds. */
  function Since(now: int, lookback: int): int {
    (now - lookback) / SECOND * SECOND
  }

  /** What the query of one tier returns from the points of the device: the newest `limit` since `since`, newest first. */
  ghost predicate IsQueried(points: set<Row>, since: int, limit: nat, rows: seq<Row>) {
    && |rows| <= limit && NewestFirst(rows)
    && (forall r | r in rows :: r in points && TimeOf(r) >= since)
    && (forall r | r in points && TimeOf(r) >= since && r !in rows :: |rows| == limit && forall q | q in rows :: TimeOf(q) > TimeOf(r))
  }

  /** The first tier that fails or holds a value decides; the tiers before it hold none. */
  ghost predicate IsAnswer(answers: seq<Result<seq<Row>, string>>, p: Result<Option<Point>, string>) {
    match p
    case Err(error) => exists k :: 0 <= k < |answers| && answers[k] == Err(error) && EmptyBefore(answers, k)
    case Ok(None) => EmptyBefore(answers, |answers|)
    case Ok(Some(_)) => exists k :: 0 <= k < |answers| && answers[k].Ok? && IsReduction(answers[k].value, p.value) && EmptyBefore(answers, k)
  }

  /** `answers` holds what the query of each tier returns, or its error. */
  method QueryLastReadings(answers: seq<Result<seq<Row>, string>>) returns (p: Result<Option<Point>, string>)
    requires |answers| == |LOOKBACKS|
    ensures IsAnswer(answers, p)
  {
    for k := 0 to |answers|
      invariant EmptyBefore(answers, k)
    {
      if answers[k].Err? {
        return Err(answers[k].error);
      }
      var reduced := ReduceLatest(answers[k].value);
      if reduced.Some? {
        return Ok(reduced);
      }
    }
    return Ok(None);
  }

  /** The first `n` tiers were answered with rows that hold no value. */
  ghost predicate EmptyBefore(answers: seq<Result<seq<Row>, string>>, n: nat)
    requires n <= |answers|
  {
    forall k | 0 <= k < n :: answers[k].Ok? && IsReduction(answers[k].value, None)
  }

  lemma NotLater(points: set<Row>, since: int, limit: nat, rows: seq<Row>, i: nat, r: Row)
    requires DistinctTimes(points) && IsQueried(points, since, limit, rows)
    requires i < |rows| && r in points && TimeOf(r) >= since && r !in rows[..i]
    ensures TimeOf(r) <= TimeOf(rows[i])
    ensures r == rows[i] || TimeOf(r) < TimeOf(rows[i])
  {
    assert rows[i] in rows && rows[i] in points;
    assert forall j | 0 <= j < i :: rows[..i][j] == rows[j];
    if r in rows {
      var j :| 0 <= j < |rows| && rows[j] == r;
    }
  }

  /** The rows of a shorter lookback are the first rows of a longer one. */
  lemma {:induction false} TierIsPrefix(points: set<Row>, since: int, since': int, limit: nat, short: seq<Row>, wide: seq<Row>, n: nat)
    requires DistinctTimes(points) && since' <= since && n <= |short|
    requires IsQueried(points, since, limit, short) && IsQueried(points, since', limit, wide)
    ensures n <= |wide| && wide[..n] == short[..n]
    decreases n
  {
    if n > 0 {
      var k := n - 1;
      TierIsPrefix(points, since, since', limit, short, wide, k);
      var r := short[k];
      assert r in short && r in points;
      assert r !in wide[..k] by {
        assert forall j | 0 <= j < k :: short[..k][j] == short[j] && TimeOf(short[j]) > TimeOf(r);
      }
      InRange(points, since', limit, wide, k, r);
      NotLater(points, since', limit, wide, k, r);
      var w := wide[k];
      assert w in wide && w in points;
      assert w !in short[..k] by {
        assert forall j | 0 <= j < k :: wide[..k][j] == wide[j] && TimeOf(wide[j]) > TimeOf(w);
      }
      NotLater(points, since, limit, short, k, w);
      assert wide[..n] == wide[..k] + [w] && short[..n] == short[..k] + [r];
    }
  }

  /** A result that misses an eligible row among its first k and is cut off by the limit has more than k rows. */
  lemma InRange(points: set<Row>, since: int, limit: nat, rows: seq<Row>, k: nat, r: Row)
    requires IsQueried(points, since, limit, rows) && k <= |rows| && k < limit
    requires r in points && TimeOf(r) >= since && r !in rows[..k]
    ensures k < |rows|
  {
    assert rows[..|rows|] == rows;
  }

  /**
   * Tiers agree: every field that the short lookback returns has the same value in the long lookback, and the
   * two results carry the same timestamp.
   */
  lemma TiersAgree(points: set<Row>, now: int, short: seq<Row>, wide: seq<Row>, p: Option<Point>, q: Option<Point>)
    requires DistinctTimes(points) && Since(now, LOOKBACKS[1]) > ZERO_TIME
    requires IsQueried(points, Since(now, LOOKBACKS[0]), MAX_ROWS, short) && IsQueried(points, Since(now, LOOKBACKS[1]), MAX_ROWS, wide)
    requires IsReduction(short, p) && IsReduction(wide, q)
    ensures p.Some? ==> q.Some? && SubPoint(p.value, q.value) && q.value.timestamp == p.value.timestamp
  {
    assert Since(now, LOOKBACKS[1]) <= Since(now, LOOKBACKS[0]);
    ShorterAgrees(points, Since(now, LOOKBACKS[0]), Since(now, LOOKBACKS[1]), short, wide, p, q);
  }

  lemma ShorterAgrees(points: set<Row>, since: int, since': int, short: seq<Row>, wide: seq<Row>, p: Option<Point>, q: Option<Point>)
    requires DistinctTimes(points) && ZERO_TIME < since' <= since
    requires IsQueried(points, since, MAX_ROWS, short) && IsQueried(points, since', MAX_ROWS, wide)
    requires IsReduction(short, p) && IsReduction(wide, q)
    ensures p.Some? ==> q.Some? && SubPoint(p.value, q.value) && q.value.timestamp == p.value.timestamp
  {
    var more := ShorterIsPrefix(points, since, since', short, wide);
    if p.Some? {
      HasTime(points, since, short, p.value);
    }
    PrefixReduction(short, more, p, q);
  }

  lemma ShorterIsPrefix(points: set<Row>, since: int, since': int, short: seq<Row>, wide: seq<Row>) returns (more: seq<Row>)
    requires DistinctTimes(points) && since' <= since
    requires IsQueried(points, since, MAX_ROWS, short) && IsQueried(points, since', MAX_ROWS, wide)
    ensures wide == short + more
  {
    TierIsPrefix(points, since, since', MAX_ROWS, short, wide, |short|);
    assert short[..|short|] == short;
    more := wide[|short|..];
  }

  lemma HasTime(points: set<Row>, since: int, rows: seq<Row>, p: Point)
    requires IsQueried(points, since, MAX_ROWS, rows) && IsReduction(rows, Some(p)) && ZERO_TIME < since
    ensures p.timestamp != ZERO_TIME
  {
    var field :| field in p.values;
    assert rows[0] in rows;
  }

  // ---- Readings by peripheral -------------------------------------------------------------------

  /** An active peripheral of the device in the list, with its last reading. */
  datatype Listed = Listed(kind: string, pin: nat, lastReading: Option<Point>)

  function Filtered(p: Point, ns: string): Option<Point> {
    var values := map k | k in p.values && InNamespace(k, ns) :: p.values[k];
    if values == map[] then None else Some(Point(p.timestamp, values))
  }

  method FilterByNamespace(p: Point, ns: string) returns (r: Option<Point>)
    ensures r == Filtered(p, ns)
  {
    var prefix := ns + "/";
    var values: map<string, Value> := map[];
    var left := p.values.Keys;
    while left != {}
      invariant left <= p.values.Keys
      invariant values == map k | k in p.values && k !in left && InNamespace(k, ns) :: p.values[k]
      decreases |left|
    {
      var k :| k in left;
      left := left - {k};
      if |k| > |prefix| && k[..|prefix|] == prefix {
        values := values[k := p.values[k]];
      }
    }
    assert values == map k | k in p.values && InNamespace(k, ns) :: p.values[k];
    return if values == map[] then None else Some(Point(p.timestamp, values));
  }

  function WithReading(l: Listed, last: Point): Listed {
    var filtered := Filtered(last, KindPin(l.kind, l.pin));
    if filtered.Some? then l.(lastReading := filtered) else l
  }

  /** The list of a device's active peripherals, each with what the last readings hold for it. */
  method List(peripherals: array<Listed>, querier: bool, answers: seq<Result<seq<Row>, string>>)
    returns (ghost last: Result<Option<Point>, string>)
    requires |answers| == |LOOKBACKS|
    modifies peripherals
    ensures if querier && peripherals.Length > 0 then IsAnswer(answers, last) else last == Ok(None)
    ensures forall i | 0 <= i < peripherals.Length ::
              peripherals[i] == if last.Ok? && last.value.Some? then WithReading(old(peripherals[i]), last.value.value) else old(peripherals[i])
  {
    last := Ok(None);
    if querier && peripherals.Length > 0 {
      var queried := QueryLastReadings(answers);
      last := queried;
      if queried.Ok? && queried.value.Some? {
        AttachReadings(peripherals, queried.value.value);
      }
    }
  }

  method AttachReadings(peripherals: array<Listed>, last: Point)
    modifies peripherals
    ensures forall i | 0 <= i < peripherals.Length :: peripherals[i] == WithReading(old(peripherals[i]), last)
  {
    for i := 0 to peripherals.Length
      invariant forall j | 0 <= j < i :: peripherals[j] == WithReading(old(peripherals[j]), last)
      invariant forall j | i <= j < peripherals.Length :: peripherals[j] == old(peripherals[j])
    {
      var ns := KindPin(peripherals[i].kind, peripherals[i].pin);
      var filtered := FilterByNamespace(last, ns);
      if filtered.Some? {
        peripherals[i] := peripherals[i].(lastReading := filtered);
      }
    }
  }

  predicate Shows(l: Listed, field: string) {
    l.lastReading.Some? && field in l.lastReading.value.values
  }

  lemma FilteredHolds(p: Point, ns: string, field: string)
    ensures var r := Filtered(p, ns);
            && (r.Some? && field in r.value.values <==> field in p.values && InNamespace(field, ns))
            && (r.Some? ==> r.value.timestamp == p.timestamp && (field in r.value.values ==> r.value.values[field] == p.values[field]))
  {
    var values := map k | k in p.values && InNamespace(k, ns) :: p.values[k];
    assert field in values <==> field in p.values && InNamespace(field, ns);
  }

  /**
   * A field is listed with at most one peripheral: peripherals without a reading get exactly the fields under
   * their kind and pin, with the value and timestamp of the last reading, and if their pins differ and no kind
   * has a slash, no field is listed twice.
   */
  lemma FieldListedOnce(before: seq<Listed>, last: Point, i: nat, j: nat, field: string)
    requires i < |before| && j < |before|
    requires forall k | 0 <= k < |before| :: before[k].lastReading.None? && '/' !in before[k].kind
    requires forall a, b | 0 <= a < b < |before| :: before[a].pin != before[b].pin
    ensures var l := WithReading(before[i], last);
            && (Shows(l, field) <==> field in last.values && InNamespace(field, KindPin(l.kind, l.pin)))
            && (Shows(l, field) ==> l.lastReading.value.values[field] == last.values[field] && l.lastReading.value.timestamp == last.timestamp)
    ensures Shows(WithReading(before[i], last), field) && Shows(WithReading(before[j], last), field) ==> i == j
  {
    var a, b := before[i], before[j];
    FilteredHolds(last, KindPin(a.kind, a.pin), field);
    FilteredHolds(last, KindPin(b.kind, b.pin), field);
    if InNamespace(field, KindPin(a.kind, a.pin)) && InNamespace(field, KindPin(b.kind, b.pin)) {
      NamespacesDisjoint(field, a.kind, a.pin, b.kind, b.pin);
    }
  }

  /** With a slash in a kind, a field can be listed with two peripherals. */
  lemma SlashSharesField(f: Value)
    ensures var field, t := "a-1/b-2/x", 0;
            var last := Point(t, map[field := f]);
            Shows(WithReading(Listed("a", 1, None), last), field) && Shows(WithReading(Listed("a-1/b", 2, None), last), field)
  {
    var field := "a-1/b-2/x";
    assert KindPin("a", 1) == "a-1" && KindPin("a-1/b", 2) == "a-1/b-2";
    var last := Point(0, map[field := f]);
    assert InNamespace(field, "a-1") && InNamespace(field, "a-1/b-2");
    assert field in map k | k in last.values && InNamespace(k, "a-1") :: last.values[k];
    assert field in map k | k in last.values && InNamespace(k, "a-1/b-2") :: last.values[k];
  }
}

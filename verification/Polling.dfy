/** Polling a SQL source: a keyset cursor, an expiring lease and idempotent capture.
  *
  * A run of the connector is asynchronous: it takes the lease, reads the checkpoint, queries the
  * source and commits, and other runs, crashes and the source itself come in between.
  */
module Polling {
  import opened Common
  import opened CanonicalJson
  import opened Chaincode

  /** (watermark, tie-breaker), both as numbers in the order of their columns. */
  datatype Key = Key(w: int, t: int)

  predicate Before(a: Key, b: Key) { a.w < b.w || (a.w == b.w && a.t < b.t) }

  predicate UpTo(a: Key, b: Key) { a == b || Before(a, b) }

  datatype Row = Row(id: Text, key: Key, payload: nat)

  // ---------------------------------------------------------------- the text of keys

  /** The type of the tie-breaker.  A STRING tie-breaker is a place in the order of the column's texts. */
  datatype Ties = BigintTies | UuidTies | StringTies(texts: seq<Text>)

  /** BIGINT or TIMESTAMP watermarks, and the tie-breakers. */
  datatype Columns = Columns(timestamp: bool, ties: Ties)

  function Pow(base: nat, width: nat): nat { if width == 0 then 1 else base * Pow(base, width - 1) }

  /** The last `width` digits of n. */
  function Padded(n: nat, base: nat, width: nat): (r: Text)
    requires base == 10 || base == 16
    ensures |r| == width && COLON !in r
  {
    if width == 0 then [] else Padded(n / base, base, width - 1) + [HexDigit(n % base)]
  }

  const TIMESTAMPS := 10_000 * 12 * 31 * 86_400_000

  /** A calendar time. */
  datatype Time = Time(year: nat, month: nat, day: nat, hour: nat, minute: nat, second: nat, milli: nat)

  /** w counts calendar milliseconds, 31 days to every month, so some w are no date. */
  function TimeOf(w: nat): (t: Time)
    ensures t.month < 12 && t.day < 31 && t.hour < 24 && t.minute < 60 && t.second < 60 && t.milli < 1000
    ensures w < TIMESTAMPS ==> t.year < 10_000
  {
    var second := w / 1000;
    var minute := second / 60;
    var hour := minute / 60;
    var day := hour / 24;
    var month := day / 31;
    Time(month / 12, month % 12, day % 31, hour % 24, minute % 60, second % 60, w % 1000)
  }

  /** toISOString */
  function IsoText(t: Time): (r: Text)
    ensures |r| == 24
  {
    Padded(t.year, 10, 4) + [MINUS] + Padded(t.month + 1, 10, 2) + [MINUS] + Padded(t.day + 1, 10, 2)
    + [0x54] + Padded(t.hour, 10, 2) + [COLON] + Padded(t.minute, 10, 2)
    + [COLON] + Padded(t.second, 10, 2) + [0x2E] + Padded(t.milli, 10, 3) + [0x5A]
  }

  const UUIDS := Pow(16, 32)

  function UuidText(t: nat): (r: Text)
    ensures COLON !in r
  {
    var hex := Padded(t, 16, 32);
    hex[..8] + [MINUS] + hex[8..12] + [MINUS] + hex[12..16] + [MINUS] + hex[16..20] + [MINUS] + hex[20..]
  }

  predicate Fits(columns: Columns, key: Key) {
    && (columns.timestamp ==> 0 <= key.w < TIMESTAMPS)
    && (columns.ties.UuidTies? ==> 0 <= key.t < UUIDS)
    && (columns.ties.StringTies? ==> 0 <= key.t < |columns.ties.texts|)
  }

  function WatermarkText(columns: Columns, key: Key): Text
    requires Fits(columns, key)
  {
    if columns.timestamp then IsoText(TimeOf(key.w)) else PrintInt(key.w)
  }

  function TieText(columns: Columns, key: Key): Text
    requires Fits(columns, key)
  {
    match columns.ties
    case BigintTies => PrintInt(key.t)
    case UuidTies => UuidText(key.t)
    case StringTies(texts) => texts[key.t]
  }

  /** sql:${sourceRecordId}:${watermark}:${tieBreaker} */
  function IdempotencyKey(id: Text, watermark: Text, tie: Text): Text {
    Ascii("sql:") + id + [COLON] + watermark + [COLON] + tie
  }

  function KeyText(columns: Columns, row: Row): Text
    requires Fits(columns, row.key)
  {
    IdempotencyKey(row.id, WatermarkText(columns, row.key), TieText(columns, row.key))
  }

  // ---------------------------------------------------------------- the source

  /** The table in the order of its keys. */
  predicate Sorted(rows: seq<Row>) { forall i, j :: 0 <= i < j < |rows| ==> Before(rows[i].key, rows[j].key) }

  function InsertRow(rows: seq<Row>, row: Row): (r: seq<Row>)
    ensures forall x :: x in r <==> x in rows || x == row
  {
    if rows == [] || Before(row.key, rows[0].key) then [row] + rows
    else
      assert rows == [rows[0]] + rows[1..];
      [rows[0]] + InsertRow(rows[1..], row)
  }

  /** WHERE (w > $1 OR (w = $1 AND t > $2)) ORDER BY w, t */
  function After(rows: seq<Row>, cursor: Key): (r: seq<Row>)
    ensures forall x :: x in r <==> x in rows && Before(cursor, x.key)
  {
    if rows == [] then [] else
      assert rows == [rows[0]] + rows[1..];
      (if Before(cursor, rows[0].key) then [rows[0]] else []) + After(rows[1..], cursor)
  }

  /** ... LIMIT $3 */
  function Query(rows: seq<Row>, cursor: Key, limit: nat): (r: seq<Row>)
    ensures |r| <= limit && forall x :: x in r ==> x in rows && Before(cursor, x.key)
  {
    var all := After(rows, cursor);
    if |all| <= limit then all else all[..limit]
  }

  const MINIMUM_BIGINT := -9_223_372_036_854_775_808

  /** The least tie-breaker of the type; the empty text comes before every other. */
  function MinimumTie(columns: Columns): int {
    match columns.ties
    case BigintTies => MINIMUM_BIGINT
    case UuidTies => 0
    case StringTies(texts) => if texts != [] && texts[0] == [] then 0 else -1
  }

  /** MAX(watermark), 0 for an empty table. */
  function MaxWatermark(rows: seq<Row>): int {
    if rows == [] then 0 else
      var rest := MaxWatermark(rows[..|rows| - 1]);
      var last := rows[|rows| - 1].key.w;
      if |rows| == 1 || last > rest then last else rest
  }

  /** The cursor of a first poll: a lookback from the clock, or a batch below the maximum. */
  function Seed(columns: Columns, rows: seq<Row>, limit: nat, clock: int, lookback: int): Key {
    Key(if columns.timestamp then clock - lookback else MaxWatermark(rows) - limit - 1, MinimumTie(columns))
  }

  // ---------------------------------------------------------------- the connector's tables

  /** A source trigger under its unique idempotency key. */
  datatype Trigger = Trigger(key: Text, row: Row)

  /** The stored cursor, and the cursor its line of polls was seeded with. */
  datatype Checkpoint = Checkpoint(at: Key, seed: Key)

  datatype Lease = Lease(owner: nat, expires: int)

  datatype Phase = Leased | Started | Seeded | Polled | Done

  /** A run of the connector: the checkpoint it read, its cursor, and the rows it was given. */
  datatype Run = Run(phase: Phase, before: Option<Checkpoint>, cursor: Key, batch: seq<Row>)

  /** `polled` are the rows that any poll has returned so far. */
  datatype Sys = Sys(
    source: seq<Row>, polled: map<Key, Row>, triggers: seq<Trigger>, checkpoint: Option<Checkpoint>,
    lease: Option<Lease>, runs: seq<Run>)

  const START := Sys([], map[], [], None, None, [])

  function Find(triggers: seq<Trigger>, key: Text): (r: Option<nat>)
    ensures r.Some? ==> r.value < |triggers| && triggers[r.value].key == key
    ensures r.None? ==> forall i :: 0 <= i < |triggers| ==> triggers[i].key != key
  {
    if triggers == [] then None
    else if triggers[|triggers| - 1].key == key then Some(|triggers| - 1)
    else Find(triggers[..|triggers| - 1], key)
  }

  /** upsert with an empty update. */
  function Upsert(columns: Columns, triggers: seq<Trigger>, row: Row): (r: seq<Trigger>)
    requires Fits(columns, row.key)
    ensures triggers <= r
  {
    var key := KeyText(columns, row);
    if Find(triggers, key).Some? then triggers else triggers + [Trigger(key, row)]
  }

  predicate AllFit(columns: Columns, rows: seq<Row>) { forall x :: x in rows ==> Fits(columns, x.key) }

  function UpsertAll(columns: Columns, triggers: seq<Trigger>, rows: seq<Row>): (r: seq<Trigger>)
    requires AllFit(columns, rows)
    ensures triggers <= r
  {
    if rows == [] then triggers else
      var last := |rows| - 1;
      Upsert(columns, UpsertAll(columns, triggers, rows[..last]), rows[last])
  }

  /** nextCheckpoint: the last row of the batch, or the checkpoint the run was given. */
  function NextCheckpoint(run: Run): Option<Checkpoint> {
    if run.batch == [] then run.before else
      Some(Checkpoint(run.batch[|run.batch| - 1].key, if run.before.Some? then run.before.value.seed else run.cursor))
  }

  function Release(lease: Option<Lease>, owner: nat): Option<Lease> {
    if lease.Some? && lease.value.owner == owner then None else lease
  }

  // ---------------------------------------------------------------- steps

  datatype Command =
    | InsertSource(row: Row)
    | RemoveSource(i: nat)
    | Acquire(time: int, until: int)
    | ReadCheckpoint(run: nat)
    | SeedCursor(run: nat, clock: int, lookback: int)
    | Poll(run: nat)
    | Commit(run: nat)
    | Fail(run: nat)

  predicate InPhase(s: Sys, r: nat, phase: Phase) { r < |s.runs| && s.runs[r].phase == phase }

  function SetRun(s: Sys, r: nat, run: Run): Sys
    requires r < |s.runs|
  {
    s.(runs := s.runs[r := run])
  }

  /** A new row sorts above everything a poll has returned, and has a key of its own. */
  predicate MayInsert(columns: Columns, s: Sys, row: Row) {
    && Fits(columns, row.key)
    && (forall k :: k in s.polled ==> Before(k, row.key))
    && (forall x :: x in s.source ==> x.key != row.key)
  }

  function Remember(polled: map<Key, Row>, rows: seq<Row>): (r: map<Key, Row>)
    ensures polled.Keys <= r.Keys
  {
    if rows == [] then polled else Remember(polled, rows[..|rows| - 1])[rows[|rows| - 1].key := rows[|rows| - 1]]
  }

  /** One step; None when it is not possible.  A run is identified with the owner of its lease. */
  function Step(columns: Columns, limit: nat, cmd: Command, s: Sys): Option<Sys> {
    match cmd
    case InsertSource(row) => if MayInsert(columns, s, row) then Some(s.(source := InsertRow(s.source, row))) else None
    case RemoveSource(i) => if i < |s.source| then Some(s.(source := s.source[..i] + s.source[i + 1..])) else None
    case Acquire(time, until) =>
      if s.lease.Some? && !(s.lease.value.expires < time) then None
      else Some(s.(lease := Some(Lease(|s.runs|, until)), runs := s.runs + [Run(Leased, None, Key(0, 0), [])]))
    case ReadCheckpoint(r) =>
      if !InPhase(s, r, Leased) then None
      else
        var cursor := if s.checkpoint.Some? then s.checkpoint.value.at else Key(0, 0);
        Some(SetRun(s, r, s.runs[r].(before := s.checkpoint, cursor := cursor,
                                     phase := if s.checkpoint.Some? then Seeded else Started)))
    case SeedCursor(r, clock, lookback) =>
      if !InPhase(s, r, Started) then None
      else Some(SetRun(s, r, s.runs[r].(phase := Seeded, cursor := Seed(columns, s.source, limit, clock, lookback))))
    case Poll(r) =>
      if !InPhase(s, r, Seeded) then None
      else
        var batch := Query(s.source, s.runs[r].cursor, limit);
        Some(SetRun(s, r, s.runs[r].(phase := Polled, batch := batch)).(polled := Remember(s.polled, batch)))
    case Commit(r) =>
      if !InPhase(s, r, Polled) || !AllFit(columns, s.runs[r].batch) then None
      else
        var next := NextCheckpoint(s.runs[r]);
        Some(SetRun(s, r, s.runs[r].(phase := Done)).(
          triggers := UpsertAll(columns, s.triggers, s.runs[r].batch),
          checkpoint := if next.Some? then next else s.checkpoint,
          lease := Release(s.lease, r)))
    case Fail(r) =>
      if r < |s.runs| then Some(SetRun(s, r, s.runs[r].(phase := Done)).(lease := Release(s.lease, r))) else None
  }

  /** The system after the first k of the steps; impossible steps change nothing. */
  function StateOf(columns: Columns, limit: nat, steps: seq<Command>, k: nat): Sys
    requires k <= |steps|
  {
    if k == 0 then START else
      var s := StateOf(columns, limit, steps, k - 1);
      var next := Step(columns, limit, steps[k - 1], s);
      if next.Some? then next.value else s
  }
}

/** Two rows that share an idempotency key: the second one is passed and never captured. */
module PollingExamples {
  import opened Common
  import opened CanonicalJson
  import opened Chaincode
  import opened Polling
  import opened PollingKeys
  import opened PollingTheorems

  /** Two rows enter the source, and one run polls and commits both of them. */
  function TwoRows(x: Row, y: Row, clock: int, lookback: int): seq<Command> {
    [InsertSource(x), InsertSource(y), Acquire(0, 60), ReadCheckpoint(0), SeedCursor(0, clock, lookback), Poll(0),
     Commit(0)]
  }

  lemma {:induction false} Steps(columns: Columns, limit: nat, steps: seq<Command>, k: nat, s: Sys, next: Sys)
    requires k < |steps| && StateOf(columns, limit, steps, k) == s && Step(columns, limit, steps[k], s) == Some(next)
    ensures StateOf(columns, limit, steps, k + 1) == next
  {
  }

  /** The two rows fit, and the cursor of the first poll lies below both of them. */
  predicate PolledTogether(columns: Columns, limit: nat, x: Row, y: Row, seed: Key) {
    Fits(columns, x.key) && Fits(columns, y.key) && Before(x.key, y.key) && Before(seed, x.key) && limit >= 2
  }

  const NEW_RUN := Run(Leased, None, Key(0, 0), [])

  function UnderWay(x: Row, y: Row, run: Run): Sys {
    START.(source := [x, y], lease := Some(Lease(0, 60)), runs := [run])
  }

  lemma Inserts(columns: Columns, limit: nat, x: Row, y: Row)
    requires Fits(columns, x.key) && Fits(columns, y.key) && Before(x.key, y.key)
    ensures Step(columns, limit, InsertSource(x), START) == Some(START.(source := [x]))
    ensures Step(columns, limit, InsertSource(y), START.(source := [x])) == Some(START.(source := [x, y]))
  {
    assert InsertRow([], x) == [x] + [] == [x];
    assert [x][1..] == [] && InsertRow([], y) == [y];
    assert [x] + [y] == [x, y];
  }

  lemma Queried(x: Row, y: Row, cursor: Key, limit: nat)
    requires Before(x.key, y.key) && Before(cursor, x.key) && limit >= 2
    ensures Query([x, y], cursor, limit) == [x, y]
  {
    assert [x, y][1..] == [y] && [y][1..] == [];
    assert After([y], cursor) == [y] + [];
    assert [x] + [y] == [x, y];
  }

  lemma Remembered(x: Row, y: Row)
    requires x.key != y.key
    ensures Remember(map[], [x, y]) == map[x.key := x, y.key := y]
  {
    assert [x, y][..1] == [x] && [x][..0] == [];
    assert Remember(map[], [x]) == Remember(map[], [])[x.key := x] == map[x.key := x];
  }

  /** What the two upserts leave. */
  function Kept(columns: Columns, x: Row, y: Row): seq<Trigger>
    requires Fits(columns, x.key) && Fits(columns, y.key)
  {
    [Trigger(KeyText(columns, x), x)]
    + if KeyText(columns, x) == KeyText(columns, y) then [] else [Trigger(KeyText(columns, y), y)]
  }

  lemma Upserted(columns: Columns, x: Row, y: Row)
    requires Fits(columns, x.key) && Fits(columns, y.key)
    ensures UpsertAll(columns, [], [x, y]) == Kept(columns, x, y)
  {
    var first := Trigger(KeyText(columns, x), x);
    assert [x, y][..1] == [x] && [x][..0] == [];
    assert [] + [first] == [first];
    assert UpsertAll(columns, [], [x]) == [first];
    assert [first][..0] == [];
    assert Find([first], KeyText(columns, y)).Some? <==> first.key == KeyText(columns, y);
  }

  lemma {:induction false} Inserted(columns: Columns, limit: nat, steps: seq<Command>, k: nat, x: Row, y: Row)
    requires Fits(columns, x.key) && Fits(columns, y.key) && Before(x.key, y.key)
    requires k + 1 < |steps| && StateOf(columns, limit, steps, k) == START
    requires steps[k] == InsertSource(x) && steps[k + 1] == InsertSource(y)
    ensures StateOf(columns, limit, steps, k + 2) == START.(source := [x, y])
  {
    Inserts(columns, limit, x, y);
    Steps(columns, limit, steps, k, START, START.(source := [x]));
    Steps(columns, limit, steps, k + 1, START.(source := [x]), START.(source := [x, y]));
  }

  lemma Opens(columns: Columns, limit: nat, x: Row, y: Row)
    ensures Step(columns, limit, Acquire(0, 60), START.(source := [x, y])) == Some(UnderWay(x, y, NEW_RUN))
    ensures Step(columns, limit, ReadCheckpoint(0), UnderWay(x, y, NEW_RUN)) ==
            Some(UnderWay(x, y, NEW_RUN.(phase := Started)))
  {
    assert [] + [NEW_RUN] == [NEW_RUN];
    assert [NEW_RUN][0 := NEW_RUN.(phase := Started)] == [NEW_RUN.(phase := Started)];
  }

  lemma {:induction false} Opened(columns: Columns, limit: nat, steps: seq<Command>, k: nat, x: Row, y: Row)
    requires k + 1 < |steps| && StateOf(columns, limit, steps, k) == START.(source := [x, y])
    requires steps[k] == Acquire(0, 60) && steps[k + 1] == ReadCheckpoint(0)
    ensures StateOf(columns, limit, steps, k + 2) == UnderWay(x, y, NEW_RUN.(phase := Started))
  {
    Opens(columns, limit, x, y);
    Steps(columns, limit, steps, k, START.(source := [x, y]), UnderWay(x, y, NEW_RUN));
    Steps(columns, limit, steps, k + 1, UnderWay(x, y, NEW_RUN), UnderWay(x, y, NEW_RUN.(phase := Started)));
  }

  lemma SeedsAndPolls(columns: Columns, limit: nat, x: Row, y: Row, clock: int, lookback: int, seed: Key)
    requires seed == Seed(columns, [x, y], limit, clock, lookback) && PolledTogether(columns, limit, x, y, seed)
    ensures Step(columns, limit, SeedCursor(0, clock, lookback), UnderWay(x, y, NEW_RUN.(phase := Started)))
         == Some(UnderWay(x, y, NEW_RUN.(phase := Seeded, cursor := seed)))
    ensures Step(columns, limit, Poll(0), UnderWay(x, y, NEW_RUN.(phase := Seeded, cursor := seed)))
         == Some(AfterPoll(x, y, seed))
  {
    var started := NEW_RUN.(phase := Started);
    var seeded := NEW_RUN.(phase := Seeded, cursor := seed);
    var polled := seeded.(phase := Polled, batch := [x, y]);
    assert [started][0 := seeded] == [seeded] && [seeded][0 := polled] == [polled];
    Queried(x, y, seed, limit);
    Remembered(x, y);
  }

  function AfterPoll(x: Row, y: Row, seed: Key): Sys {
    UnderWay(x, y, Run(Polled, None, seed, [x, y])).(polled := map[x.key := x, y.key := y])
  }

  lemma Commits(columns: Columns, limit: nat, x: Row, y: Row, seed: Key) returns (b: Sys)
    requires Fits(columns, x.key) && Fits(columns, y.key)
    ensures Step(columns, limit, Commit(0), AfterPoll(x, y, seed)) == Some(b)
    ensures b.source == [x, y] && b.triggers == Kept(columns, x, y) && b.checkpoint == Some(Checkpoint(y.key, seed))
  {
    Upserted(columns, x, y);
    b := Step(columns, limit, Commit(0), AfterPoll(x, y, seed)).value;
  }

  lemma {:induction false} PolledAndCommitted(columns: Columns, limit: nat, steps: seq<Command>, k: nat, x: Row, y: Row,
                                              clock: int, lookback: int, seed: Key)
    requires seed == Seed(columns, [x, y], limit, clock, lookback) && PolledTogether(columns, limit, x, y, seed)
    requires k + 3 == |steps| && StateOf(columns, limit, steps, k) == UnderWay(x, y, NEW_RUN.(phase := Started))
    requires steps[k] == SeedCursor(0, clock, lookback) && steps[k + 1] == Poll(0) && steps[k + 2] == Commit(0)
    ensures var s := StateOf(columns, limit, steps, k + 3);
            s.source == [x, y] && s.triggers == Kept(columns, x, y) && s.checkpoint == Some(Checkpoint(y.key, seed))
  {
    var seeded := UnderWay(x, y, NEW_RUN.(phase := Seeded, cursor := seed));
    SeedsAndPolls(columns, limit, x, y, clock, lookback, seed);
    Steps(columns, limit, steps, k, UnderWay(x, y, NEW_RUN.(phase := Started)), seeded);
    Steps(columns, limit, steps, k + 1, seeded, AfterPoll(x, y, seed));
    var b := Commits(columns, limit, x, y, seed);
    Steps(columns, limit, steps, k + 2, AfterPoll(x, y, seed), b);
  }

  lemma KeptRows(columns: Columns, s: Sys, x: Row, y: Row, seed: Key)
    requires Fits(columns, x.key) && Fits(columns, y.key) && Before(seed, x.key) && Before(x.key, y.key)
    requires s.source == [x, y] && s.triggers == Kept(columns, x, y) && s.checkpoint == Some(Checkpoint(y.key, seed))
    ensures Passed(s, x) && Passed(s, y) && Captured(s.triggers, x)
    ensures Captured(s.triggers, y) <==> KeyText(columns, x) != KeyText(columns, y)
  {
    assert s.triggers[0].row == x;
    if KeyText(columns, x) != KeyText(columns, y) { assert s.triggers[1].row == y; }
  }

  /** The run passes the second row, and captures it if and only if its key is not the first one's. */
  lemma {:induction false} SecondRowCapturedIff(columns: Columns, limit: nat, x: Row, y: Row, clock: int, lookback: int,
                                                steps: seq<Command>)
    requires PolledTogether(columns, limit, x, y, Seed(columns, [x, y], limit, clock, lookback))
    requires steps == TwoRows(x, y, clock, lookback)
    ensures var s := StateOf(columns, limit, steps, |steps|);
            && Passed(s, x) && Passed(s, y) && Captured(s.triggers, x)
            && (Captured(s.triggers, y) <==> KeyText(columns, x) != KeyText(columns, y))
  {
    var n := |steps|;
    Inserted(columns, limit, steps, n - 7, x, y);
    Opened(columns, limit, steps, n - 5, x, y);
    PolledAndCommitted(columns, limit, steps, n - 3, x, y, clock, lookback,
                       Seed(columns, [x, y], limit, clock, lookback));
    KeptRows(columns, StateOf(columns, limit, steps, n), x, y, Seed(columns, [x, y], limit, clock, lookback));
  }

  // ---------------------------------------------------------------- the row "a:1"

  const LABELS := Columns(false, StringTies([Ascii("2:3"), Ascii("3")]))
  const FIRST := Row(Ascii("a"), Key(1, 0), 0)
  const SECOND := Row(Ascii("a:1"), Key(2, 1), 0)

  lemma OneDigit(n: nat)
    requires n < 10
    ensures PrintInt(n) == [0x30 + n]
  {
  }

  /** Both rows have the key sql:a:1:2:3. */
  lemma OneKey()
    ensures KeyText(LABELS, FIRST) == KeyText(LABELS, SECOND)
  {
    OneDigit(1);
    OneDigit(2);
    assert Ascii("2:3") == PrintInt(2) + [COLON] + Ascii("3");
    assert Ascii("a:1") == Ascii("a") + [COLON] + PrintInt(1);
    assert Overlap(FIRST.id, PrintInt(1), Ascii("2:3"), SECOND.id, PrintInt(2), Ascii("3"));
    KeysEqualIff(LABELS, FIRST, SECOND);
  }

  /** Ids "a" and "a:1" with watermarks 1 and 2 and STRING ties "2:3" and "3": the second row is passed by
    * the checkpoint and gets no trigger. */
  lemma {:induction false} SecondRowLost(limit: nat, steps: seq<Command>)
    requires limit >= 2 && steps == TwoRows(FIRST, SECOND, 0, 0)
    ensures Distinct(LABELS)
    ensures var s := StateOf(LABELS, limit, steps, |steps|); Passed(s, SECOND) && !Captured(s.triggers, SECOND)
  {
    var (texts, rows) := (LABELS.ties.texts, [FIRST, SECOND]);
    assert |texts[0]| == 3 && |texts[1]| == 1;
    assert rows[..1] == [FIRST] && MaxWatermark([FIRST]) == 1;
    assert MaxWatermark(rows) == 2;
    OneKey();
    SecondRowCapturedIff(LABELS, limit, FIRST, SECOND, 0, 0, steps);
  }
}

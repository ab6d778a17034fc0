/** What the idempotency keys of the poller tell apart. */
module PollingKeys {
  import opened Common
  import opened CanonicalJson
  import opened CanonicalJsonTheorems
  import opened Chaincode
  import opened Polling

  // ---------------------------------------------------------------- texts

  lemma {:induction false} PaddedInjective(a: nat, b: nat, base: nat, width: nat)
    requires base == 10 || base == 16
    requires a < Pow(base, width) && b < Pow(base, width) && Padded(a, base, width) == Padded(b, base, width)
    ensures a == b
  {
    if width > 0 {
      var (x, y) := (Padded(a, base, width), Padded(b, base, width));
      assert x[..width - 1] == Padded(a / base, base, width - 1) && y[..width - 1] == Padded(b / base, base, width - 1);
      assert x[width - 1] == HexDigit(a % base) && y[width - 1] == HexDigit(b % base);
      HexDigitRoundTrip(a % base);
      HexDigitRoundTrip(b % base);
      Quotient(a, base, Pow(base, width - 1));
      Quotient(b, base, Pow(base, width - 1));
      PaddedInjective(a / base, b / base, base, width - 1);
    }
  }

  lemma Quotient(a: nat, base: nat, p: nat)
    requires (base == 10 || base == 16) && a < base * p
    ensures a / base < p
  {
    if base == 10 { assert a < 10 * p; } else { assert a < 16 * p; }
  }

  lemma Powers()
    ensures Pow(10, 2) == 100 && Pow(10, 3) == 1000 && Pow(10, 4) == 10_000
  {
    assert Pow(10, 0) == 1 && Pow(10, 1) == 10;
  }

  lemma IsoSlices(t: Time)
    ensures var x := IsoText(t);
            && x[..4] == Padded(t.year, 10, 4) && x[5..7] == Padded(t.month + 1, 10, 2)
            && x[8..10] == Padded(t.day + 1, 10, 2) && x[11..13] == Padded(t.hour, 10, 2)
            && x[14..16] == Padded(t.minute, 10, 2) && x[17..19] == Padded(t.second, 10, 2)
            && x[20..23] == Padded(t.milli, 10, 3)
  {
  }

  lemma Carry(a: nat, b: nat, n: nat)
    requires n > 0 && a / n == b / n && a % n == b % n
    ensures a == b
  {
    assert a == a / n * n + a % n && b == b / n * n + b % n;
  }

  lemma IsoTimes(a: Time, b: Time)
    requires a.year < 10_000 && a.month < 12 && a.day < 31 && a.hour < 24 && a.minute < 60 && a.second < 60
             && a.milli < 1000
    requires b.year < 10_000 && b.month < 12 && b.day < 31 && b.hour < 24 && b.minute < 60 && b.second < 60
             && b.milli < 1000
    requires IsoText(a) == IsoText(b)
    ensures a == b
  {
    Powers();
    IsoSlices(a);
    IsoSlices(b);
    PaddedInjective(a.year, b.year, 10, 4);
    PaddedInjective(a.month + 1, b.month + 1, 10, 2);
    PaddedInjective(a.day + 1, b.day + 1, 10, 2);
    PaddedInjective(a.hour, b.hour, 10, 2);
    PaddedInjective(a.minute, b.minute, 10, 2);
    PaddedInjective(a.second, b.second, 10, 2);
    PaddedInjective(a.milli, b.milli, 10, 3);
  }

  lemma TimeInjective(a: nat, b: nat)
    requires TimeOf(a) == TimeOf(b)
    ensures a == b
  {
    var (second, second') := (a / 1000, b / 1000);
    var (minute, minute') := (second / 60, second' / 60);
    var (hour, hour') := (minute / 60, minute' / 60);
    var (day, day') := (hour / 24, hour' / 24);
    var (month, month') := (day / 31, day' / 31);
    Carry(month, month', 12);
    Carry(day, day', 31);
    Carry(hour, hour', 24);
    Carry(minute, minute', 60);
    Carry(second, second', 60);
    Carry(a, b, 1000);
  }

  /** The text of a millisecond-exact timestamp determines it. */
  lemma IsoInjective(a: nat, b: nat)
    requires a < TIMESTAMPS && b < TIMESTAMPS && IsoText(TimeOf(a)) == IsoText(TimeOf(b))
    ensures a == b
  {
    IsoTimes(TimeOf(a), TimeOf(b));
    TimeInjective(a, b);
  }

  lemma HexOfUuid(t: nat)
    ensures var x := UuidText(t);
            Padded(t, 16, 32) == x[..8] + x[9..13] + x[14..18] + x[19..23] + x[24..]
  {
    var (x, hex) := (UuidText(t), Padded(t, 16, 32));
    assert x[..8] == hex[..8] && x[9..13] == hex[8..12] && x[14..18] == hex[12..16] && x[19..23] == hex[16..20];
    assert x[24..] == hex[20..];
    assert hex[..8] + hex[8..12] == hex[..12];
    assert hex[..12] + hex[12..16] == hex[..16];
    assert hex[..16] + hex[16..20] == hex[..20];
    assert hex[..20] + hex[20..] == hex;
  }

  lemma UuidInjective(a: nat, b: nat)
    requires a < UUIDS && b < UUIDS && UuidText(a) == UuidText(b)
    ensures a == b
  {
    HexOfUuid(a);
    HexOfUuid(b);
    PaddedInjective(a, b, 16, 32);
  }

  lemma IntInjective(a: int, b: int)
    requires PrintInt(a) == PrintInt(b)
    ensures a == b
  {
    IntRoundTrip(a, []);
    IntRoundTrip(b, []);
    assert PrintInt(a) + [] == PrintInt(b) + [];
  }

  lemma IntNoColon(n: int)
    ensures COLON !in PrintInt(n)
  {
    var digits := Digits(if n < 0 then -n else n);
    assert forall i :: 0 <= i < |digits| ==> IsDigit(digits[i]);
  }

  /** What follows the last colon, when it holds none itself, is determined by the whole. */
  lemma AfterLastColon(a: Text, x: Text, b: Text, y: Text)
    requires a + [COLON] + x == b + [COLON] + y && COLON !in x && COLON !in y
    ensures a == b && x == y
  {
    var s := a + [COLON] + x;
    assert forall k :: |s| - |x| <= k < |s| ==> s[k] == x[k - (|s| - |x|)];
    assert forall k :: |s| - |y| <= k < |s| ==> s[k] == y[k - (|s| - |y|)];
    assert s[|s| - |x| - 1] == COLON && s[|s| - |y| - 1] == COLON;
    AfterFixed(a, x, b, y);
  }

  lemma AfterFixed(a: Text, x: Text, b: Text, y: Text)
    requires a + [COLON] + x == b + [COLON] + y && |x| == |y|
    ensures a == b && x == y
  {
    var s := a + [COLON] + x;
    assert a == s[..|s| - |x| - 1] && b == s[..|s| - |x| - 1];
    assert x == s[|s| - |x|..] && y == s[|s| - |x|..];
  }

  lemma {:induction false} PaddedDigits(n: nat, width: nat)
    ensures forall i :: 0 <= i < width ==> IsDigit(Padded(n, 10, width)[i])
  {
    if width > 0 { PaddedDigits(n / 10, width - 1); }
  }

  const ZULU: Unit := 0x5A

  /** The letter Z ends an ISO timestamp and stands nowhere else in it. */
  lemma IsoEndsInZ(t: Time)
    ensures IsoText(t)[23] == ZULU && forall i :: 0 <= i < 23 ==> IsoText(t)[i] != ZULU
  {
    PaddedDigits(t.year, 4);
    PaddedDigits(t.month + 1, 2);
    PaddedDigits(t.day + 1, 2);
    PaddedDigits(t.hour, 2);
    PaddedDigits(t.minute, 2);
    PaddedDigits(t.second, 2);
    PaddedDigits(t.milli, 3);
  }

  // ---------------------------------------------------------------- the watermark before a colon

  lemma WatermarkSplits(columns: Columns, x: Key, y: Key, a: Text, b: Text)
    requires Fits(columns, x) && Fits(columns, y)
    requires a + [COLON] + WatermarkText(columns, x) == b + [COLON] + WatermarkText(columns, y)
    ensures a == b && WatermarkText(columns, x) == WatermarkText(columns, y) && x.w == y.w
  {
    var (p, q) := (WatermarkText(columns, x), WatermarkText(columns, y));
    if columns.timestamp {
      AfterFixed(a, p, b, q);
      IsoInjective(x.w, y.w);
    } else {
      IntNoColon(x.w);
      IntNoColon(y.w);
      AfterLastColon(a, p, b, q);
      IntInjective(x.w, y.w);
    }
  }

  /** One tie is the other's watermark and tie behind a text m, and the record ids make up for it. */
  ghost predicate Overlap(a: Text, p: Text, u: Text, b: Text, q: Text, v: Text) {
    || (u == q + [COLON] + v && b == a + [COLON] + p)
    || exists m: Text :: OverlapAt(a, p, u, b, q, v, m)
  }

  ghost predicate OverlapAt(a: Text, p: Text, u: Text, b: Text, q: Text, v: Text, m: Text) {
    u == m + [COLON] + q + [COLON] + v && b == a + [COLON] + p + [COLON] + m
  }

  /** A text that ends like another one after its last colon. */
  lemma {:induction false} LastColon(y: Text) returns (m: Text, rest: Text)
    requires COLON in y
    ensures y == m + [COLON] + rest && COLON !in rest
  {
    var n := |y| - 1;
    if y[n] == COLON {
      m, rest := y[..n], [];
      assert y == m + [COLON] + rest;
    } else {
      assert y == y[..n] + [y[n]];
      m, rest := LastColon(y[..n]);
      rest := rest + [y[n]];
    }
  }

  lemma Colons(a: Text, p: Text, m: Text, rest: Text)
    ensures a + [COLON] + p + [COLON] + (m + [COLON] + rest) == (a + [COLON] + p + [COLON] + m) + [COLON] + rest
  {
  }

  /** a:p:y is b:q, where q is a watermark: y is q, or ends in it after a colon. */
  lemma WatermarkInside(columns: Columns, x: Key, z: Key, a: Text, y: Text, b: Text) returns (m: Option<Text>)
    requires Fits(columns, x) && Fits(columns, z)
    requires a + [COLON] + WatermarkText(columns, x) + [COLON] + y == b + [COLON] + WatermarkText(columns, z)
    ensures var (p, q) := (WatermarkText(columns, x), WatermarkText(columns, z));
            if m.None? then y == q && b == a + [COLON] + p
            else y == m.value + [COLON] + q && b == a + [COLON] + p + [COLON] + m.value
  {
    var (p, q) := (WatermarkText(columns, x), WatermarkText(columns, z));
    if columns.timestamp {
      m := IsoInside(TimeOf(x.w), TimeOf(z.w), a, y, b);
    } else {
      IntNoColon(z.w);
      if COLON in y {
        var before, rest := LastColon(y);
        Colons(a, p, before, rest);
        AfterLastColon(a + [COLON] + p + [COLON] + before, rest, b, q);
        m := Some(before);
      } else {
        AfterLastColon(a + [COLON] + p, y, b, q);
        m := None;
      }
    }
  }

  /** The Z that ends the first timestamp would otherwise stand inside the second, or on the colon before it. */
  lemma IsoTailLong(s: Time, t: Time, a: Text, y: Text, b: Text)
    requires a + [COLON] + IsoText(s) + [COLON] + y == b + [COLON] + IsoText(t)
    ensures |y| >= 24
  {
    var whole := b + [COLON] + IsoText(t);
    IsoEndsInZ(s);
    IsoEndsInZ(t);
    assert forall i :: |b| < i < |whole| - 1 ==> whole[i] == IsoText(t)[i - |b| - 1] != ZULU;
    assert whole[|b|] == COLON != ZULU;
    var i := |whole| - |y| - 2;
    assert whole[i] == (a + [COLON] + IsoText(s) + [COLON] + y)[i] == ZULU;
  }

  lemma IsoInside(s: Time, t: Time, a: Text, y: Text, b: Text) returns (m: Option<Text>)
    requires a + [COLON] + IsoText(s) + [COLON] + y == b + [COLON] + IsoText(t)
    ensures var (p, q) := (IsoText(s), IsoText(t));
            if m.None? then y == q && b == a + [COLON] + p
            else y == m.value + [COLON] + q && b == a + [COLON] + p + [COLON] + m.value
  {
    var (p, q) := (IsoText(s), IsoText(t));
    var whole := b + [COLON] + q;
    IsoTailLong(s, t, a, y, b);
    if |y| == 24 {
      AfterFixed(a + [COLON] + p, y, b, q);
      m := None;
    } else {
      var n := |y| - 25;
      m := Some(y[..n]);
      assert whole[|whole| - 25] == COLON;
      assert y[n] == (a + [COLON] + p + [COLON] + y)[|whole| - 25];
      assert y == y[..n] + [COLON] + y[n + 1..];
      Colons(a, p, y[..n], y[n + 1..]);
      AfterFixed(a + [COLON] + p + [COLON] + y[..n], y[n + 1..], b, q);
    }
  }

  // ---------------------------------------------------------------- when two keys are equal

  lemma KeyParts(a: Text, p: Text, u: Text, b: Text, q: Text, v: Text)
    ensures IdempotencyKey(a, p, u) == IdempotencyKey(b, q, v)
       <==> a + [COLON] + p + [COLON] + u == b + [COLON] + q + [COLON] + v
  {
    var (x, y) := (a + [COLON] + p + [COLON] + u, b + [COLON] + q + [COLON] + v);
    assert IdempotencyKey(a, p, u) == Ascii("sql:") + x && IdempotencyKey(b, q, v) == Ascii("sql:") + y;
    assert (Ascii("sql:") + x)[4..] == x && (Ascii("sql:") + y)[4..] == y;
  }

  lemma OverlapsCollide(a: Text, p: Text, u: Text, b: Text, q: Text, v: Text)
    requires Overlap(a, p, u, b, q, v)
    ensures a + [COLON] + p + [COLON] + u == b + [COLON] + q + [COLON] + v
  {
    if u == q + [COLON] + v && b == a + [COLON] + p {
      assert a + [COLON] + p + [COLON] + (q + [COLON] + v) == (a + [COLON] + p) + [COLON] + q + [COLON] + v;
    } else {
      var m: Text :| OverlapAt(a, p, u, b, q, v, m);
      assert a + [COLON] + p + [COLON] + (m + [COLON] + q + [COLON] + v)
          == (a + [COLON] + p + [COLON] + m) + [COLON] + q + [COLON] + v;
    }
  }

  lemma LongerTieOverlaps(columns: Columns, x: Key, y: Key, a: Text, u: Text, b: Text, v: Text)
    requires Fits(columns, x) && Fits(columns, y) && |u| > |v|
    requires a + [COLON] + WatermarkText(columns, x) + [COLON] + u ==
             b + [COLON] + WatermarkText(columns, y) + [COLON] + v
    ensures Overlap(a, WatermarkText(columns, x), u, b, WatermarkText(columns, y), v)
  {
    var (p, q) := (WatermarkText(columns, x), WatermarkText(columns, y));
    var (whole, n) := (b + [COLON] + q + [COLON] + v, |u| - |v| - 1);
    assert whole[|whole| - |v| - 1] == COLON;
    assert u[n] == (a + [COLON] + p + [COLON] + u)[|whole| - |v| - 1];
    assert u == u[..n] + [COLON] + u[n + 1..];
    Colons(a, p, u[..n], u[n + 1..]);
    AfterFixed(a + [COLON] + p + [COLON] + u[..n], u[n + 1..], b + [COLON] + q, v);
    var m := WatermarkInside(columns, x, y, a, u[..n], b);
    if m.Some? { assert OverlapAt(a, p, u, b, q, v, m.value); }
  }

  /** Two rows have one idempotency key if and only if their ids, watermarks and ties are the same, or the
    * tie of one is made of the watermark and tie of the other, which its record id makes up for. */
  lemma KeysEqualIff(columns: Columns, x: Row, y: Row)
    requires Fits(columns, x.key) && Fits(columns, y.key)
    ensures var (p, u) := (WatermarkText(columns, x.key), TieText(columns, x.key));
            var (q, v) := (WatermarkText(columns, y.key), TieText(columns, y.key));
            KeyText(columns, x) == KeyText(columns, y) <==>
              (|| (x.id == y.id && x.key.w == y.key.w && u == v)
               || Overlap(x.id, p, u, y.id, q, v) || Overlap(y.id, q, v, x.id, p, u))
  {
    var (p, u) := (WatermarkText(columns, x.key), TieText(columns, x.key));
    var (q, v) := (WatermarkText(columns, y.key), TieText(columns, y.key));
    KeyParts(x.id, p, u, y.id, q, v);
    if Overlap(x.id, p, u, y.id, q, v) { OverlapsCollide(x.id, p, u, y.id, q, v); }
    if Overlap(y.id, q, v, x.id, p, u) { OverlapsCollide(y.id, q, v, x.id, p, u); }
    if x.id + [COLON] + p + [COLON] + u == y.id + [COLON] + q + [COLON] + v {
      if |u| > |v| {
        LongerTieOverlaps(columns, x.key, y.key, x.id, u, y.id, v);
      } else if |v| > |u| {
        LongerTieOverlaps(columns, y.key, x.key, y.id, v, x.id, u);
      } else {
        AfterFixed(x.id + [COLON] + p, u, y.id + [COLON] + q, v);
        WatermarkSplits(columns, x.key, y.key, x.id, y.id);
      }
    }
  }

  // ---------------------------------------------------------------- when keys tell rows apart

  /** The tie of this key holds no colon: always so for BIGINT and UUID. */
  predicate Clear(columns: Columns, key: Key) {
    Fits(columns, key) && COLON !in TieText(columns, key)
  }

  /** Different tie-breakers of the column have different texts. */
  predicate Distinct(columns: Columns) {
    columns.ties.StringTies? ==> NoDuplicates(columns.ties.texts)
  }

  lemma NumbersAreClear(columns: Columns, key: Key)
    requires Fits(columns, key) && !columns.ties.StringTies?
    ensures Clear(columns, key)
  {
    if columns.ties.BigintTies? { IntNoColon(key.t); }
  }

  lemma TieTextInjective(columns: Columns, x: Key, y: Key)
    requires Fits(columns, x) && Fits(columns, y) && Distinct(columns) && TieText(columns, x) == TieText(columns, y)
    ensures x.t == y.t
  {
    match columns.ties
    case BigintTies => IntInjective(x.t, y.t);
    case UuidTies => UuidInjective(x.t, y.t);
    case StringTies(texts) =>
      assert forall i, k :: 0 <= i < k < |texts| ==> texts[i] != texts[k];
  }

  lemma ClearNeverOverlaps(a: Text, p: Text, u: Text, b: Text, q: Text, v: Text)
    requires COLON !in u
    ensures !Overlap(a, p, u, b, q, v)
  {
    assert (q + [COLON] + v)[|q|] == COLON;
    forall m: Text ensures !OverlapAt(a, p, u, b, q, v, m) {
      assert (m + [COLON] + q + [COLON] + v)[|m|] == COLON;
    }
  }

  /** Rows whose ties hold no colon and that share an idempotency key have one id, watermark and tie. */
  lemma KeyTextInjective(columns: Columns, x: Row, y: Row)
    requires Distinct(columns) && Clear(columns, x.key) && Clear(columns, y.key)
    requires KeyText(columns, x) == KeyText(columns, y)
    ensures x.id == y.id && x.key == y.key
  {
    var (p, u) := (WatermarkText(columns, x.key), TieText(columns, x.key));
    var (q, v) := (WatermarkText(columns, y.key), TieText(columns, y.key));
    KeysEqualIff(columns, x, y);
    ClearNeverOverlaps(x.id, p, u, y.id, q, v);
    ClearNeverOverlaps(y.id, q, v, x.id, p, u);
    TieTextInjective(columns, x.key, y.key);
  }
}

/** The canonical JSON printer of the ledger worker, and a parser that undoes it.
  *
  * A JavaScript string is a sequence of UTF-16 code units.  The grammar read by the parser is
  * that of RFC 8259 with integers as the only numbers.
  */
module CanonicalJson {
  import opened Common

  type Unit = u: int | 0 <= u < 0x1_0000
  type Text = seq<Unit>

  /** An object keeps its fields in insertion order. */
  datatype Json =
    | Null
    | Bool(b: bool)
    | Num(n: int)
    | NonFinite
    | Str(s: Text)
    | Arr(items: seq<Json>)
    | Obj(fields: seq<Field>)

  datatype Field = Field(key: Text, value: Json)

  /** The value a JSON document stands for: its objects are finite maps. */
  datatype Value =
    | VNull
    | VBool(b: bool)
    | VNum(n: int)
    | VNonFinite
    | VStr(s: Text)
    | VArr(items: seq<Value>)
    | VObj(fields: map<Text, Value>)

  function Denote(j: Json): Value {
    match j
    case Null => VNull
    case Bool(b) => VBool(b)
    case Num(n) => VNum(n)
    case NonFinite => VNonFinite
    case Str(s) => VStr(s)
    case Arr(items) => VArr(DenoteItems(items))
    case Obj(fields) => VObj(DenoteFields(fields))
  }

  function DenoteItems(items: seq<Json>): (r: seq<Value>)
    ensures |r| == |items|
  {
    if items == [] then [] else [Denote(items[0])] + DenoteItems(items[1..])
  }

  /** A later field with the same key replaces an earlier one. */
  function DenoteFields(fields: seq<Field>): map<Text, Value> {
    if fields == [] then map[] else
      var last := fields[|fields| - 1];
      DenoteFields(fields[..|fields| - 1])[last.key := Denote(last.value)]
  }

  // ---------------------------------------------------------------- objects

  function Keys(fields: seq<Field>): (r: seq<Text>)
    ensures |r| == |fields|
  {
    seq(|fields|, i requires 0 <= i < |fields| => fields[i].key)
  }

  /** value[key] */
  function Get(fields: seq<Field>, key: Text): (r: Json)
    requires key in Keys(fields)
    ensures Field(key, r) in fields
  {
    var last := |fields| - 1;
    if fields[last].key == key then fields[last].value
    else
      assert Keys(fields) == Keys(fields[..last]) + [fields[last].key];
      Get(fields[..last], key)
  }

  predicate NoDuplicates<T(==)>(xs: seq<T>) { forall i, k :: 0 <= i < k < |xs| ==> xs[i] != xs[k] }

  /** What every JavaScript value satisfies: no object has two fields of one name. */
  predicate WellFormed(j: Json) {
    match j
    case Arr(items) => forall i :: 0 <= i < |items| ==> WellFormed(items[i])
    case Obj(fields) => NoDuplicates(Keys(fields)) && forall i :: 0 <= i < |fields| ==> WellFormed(fields[i].value)
    case _ => true
  }

  ghost predicate Finite(j: Json) {
    match j
    case NonFinite => false
    case Arr(items) => forall i :: 0 <= i < |items| ==> Finite(items[i])
    case Obj(fields) => forall i :: 0 <= i < |fields| ==> Finite(fields[i].value)
    case _ => true
  }

  // ---------------------------------------------------------------- sorting keys by code unit

  predicate Less(a: Text, b: Text) {
    b != [] && (a == [] || a[0] < b[0] || (a[0] == b[0] && Less(a[1..], b[1..])))
  }

  /** a is a proper prefix of b, or smaller at the first unit where they differ. */
  ghost predicate DiffersAt(a: Text, b: Text, i: nat) {
    i <= |a| && i < |b| && a[..i] == b[..i] && (i < |a| ==> a[i] < b[i])
  }

  lemma {:induction false} LessIff(a: Text, b: Text)
    ensures Less(a, b) <==> exists i: nat :: DiffersAt(a, b, i)
  {
    if a != [] && b != [] && a[0] == b[0] {
      LessIff(a[1..], b[1..]);
      if i: nat :| DiffersAt(a[1..], b[1..], i) {
        assert a[..i + 1] == [a[0]] + a[1..][..i] && b[..i + 1] == [b[0]] + b[1..][..i];
        assert DiffersAt(a, b, i + 1);
      }
      if i: nat :| DiffersAt(a, b, i) {
        assert i > 0 && a[1..][..i - 1] == a[..i][1..] && b[1..][..i - 1] == b[..i][1..];
        assert DiffersAt(a[1..], b[1..], i - 1);
      }
    } else if Less(a, b) {
      assert DiffersAt(a, b, 0);
    }
  }

  predicate Ascending(keys: seq<Text>) { forall i, k :: 0 <= i < k < |keys| ==> Less(keys[i], keys[k]) }

  function Insert(key: Text, sorted: seq<Text>): (r: seq<Text>)
    ensures forall k :: k in r <==> k == key || k in sorted
  {
    if sorted == [] || !Less(sorted[0], key) then [key] + sorted
    else
      assert sorted == [sorted[0]] + sorted[1..];
      [sorted[0]] + Insert(key, sorted[1..])
  }

  /** Array.prototype.sort with its default comparison. */
  function Sort(keys: seq<Text>): (r: seq<Text>)
    ensures forall k :: k in r <==> k in keys
  {
    if keys == [] then [] else
      assert keys == [keys[0]] + keys[1..];
      Insert(keys[0], Sort(keys[1..]))
  }

  lemma {:induction false} InsertPermutes(key: Text, sorted: seq<Text>)
    ensures multiset(Insert(key, sorted)) == multiset(sorted) + multiset{key}
  {
    if sorted != [] && Less(sorted[0], key) {
      InsertPermutes(key, sorted[1..]);
      assert sorted == [sorted[0]] + sorted[1..];
    }
  }

  lemma {:induction false} SortPermutes(keys: seq<Text>)
    ensures multiset(Sort(keys)) == multiset(keys) && |Sort(keys)| == |keys|
  {
    if keys != [] {
      SortPermutes(keys[1..]);
      InsertPermutes(keys[0], Sort(keys[1..]));
      assert keys == [keys[0]] + keys[1..];
    }
    assert |multiset(Sort(keys))| == |multiset(keys)|;
  }

  lemma {:induction false} LessTotal(a: Text, b: Text)
    ensures Less(a, b) || Less(b, a) || a == b
    ensures !(Less(a, b) && Less(b, a)) && !Less(a, a)
  {
    if a != [] && b != [] && a[0] == b[0] {
      LessTotal(a[1..], b[1..]);
      assert a == [a[0]] + a[1..] && b == [b[0]] + b[1..];
    }
    if a != [] { LessTotal(a[1..], a[1..]); }
  }

  lemma {:induction false} LessTransitive(a: Text, b: Text, c: Text)
    requires Less(a, b) && Less(b, c)
    ensures Less(a, c)
  {
    if a != [] && a[0] == b[0] == c[0] {
      LessTransitive(a[1..], b[1..], c[1..]);
    }
  }

  lemma {:induction false} InsertAscends(key: Text, sorted: seq<Text>)
    requires Ascending(sorted) && key !in sorted
    ensures Ascending(Insert(key, sorted))
  {
    if sorted == [] {
    } else if !Less(sorted[0], key) {
      LessTotal(sorted[0], key);
      forall k | 0 <= k < |sorted| ensures Less(key, sorted[k]) {
        if k > 0 { LessTransitive(key, sorted[0], sorted[k]); }
      }
    } else {
      var rest := sorted[1..];
      InsertAscends(key, rest);
      var r := Insert(key, rest);
      forall k | 0 <= k < |r| ensures Less(sorted[0], r[k]) {
        assert r[k] in r;
        if r[k] != key {
          var i :| 0 <= i < |rest| && rest[i] == r[k];
          assert sorted[i + 1] == r[k];
        }
      }
    }
  }

  lemma {:induction false} SortAscends(keys: seq<Text>)
    requires NoDuplicates(keys)
    ensures Ascending(Sort(keys))
  {
    if keys != [] {
      forall i, k | 0 <= i < k < |keys[1..]| ensures keys[1..][i] != keys[1..][k] {
        assert keys[i + 1] != keys[k + 1];
      }
      SortAscends(keys[1..]);
      assert forall i :: 0 <= i < |keys[1..]| ==> keys[1..][i] == keys[i + 1] != keys[0];
      InsertAscends(keys[0], Sort(keys[1..]));
    }
  }

  /** An ascending list of keys is determined by which keys it holds. */
  lemma {:induction false} AscendingUnique(a: seq<Text>, b: seq<Text>)
    requires Ascending(a) && Ascending(b) && forall k :: k in a <==> k in b
    ensures a == b
  {
    assert (a != [] ==> a[0] in a) && (b != [] ==> b[0] in b);
    if a != [] && b != [] {
      HeadIsLeast(a, b[0]);
      HeadIsLeast(b, a[0]);
      LessTotal(a[0], b[0]);
      forall k ensures k in a[1..] <==> k in b[1..] {
        AscendingTail(a, k);
        AscendingTail(b, k);
      }
      AscendingUnique(a[1..], b[1..]);
      assert a == [a[0]] + a[1..] && b == [b[0]] + b[1..];
    }
  }

  lemma AscendingTail(a: seq<Text>, k: Text)
    requires a != [] && Ascending(a)
    ensures k in a[1..] <==> k in a && k != a[0]
  {
    LessTotal(a[0], a[0]);
    if k in a[1..] {
      var i :| 0 <= i < |a[1..]| && a[1..][i] == k;
      assert Less(a[0], a[i + 1]);
    }
    if k in a && k != a[0] {
      var i :| 0 <= i < |a| && a[i] == k;
      assert a[1..][i - 1] == k;
    }
  }

  lemma HeadIsLeast(a: seq<Text>, k: Text)
    requires Ascending(a) && k in a
    ensures k == a[0] || Less(a[0], k)
  {
    var i :| 0 <= i < |a| && a[i] == k;
    if i > 0 { assert Less(a[0], a[i]); }
  }

  // ---------------------------------------------------------------- printing strings and numbers

  const QUOTE: Unit := 0x22
  const BACKSLASH: Unit := 0x5C
  const COMMA: Unit := 0x2C
  const COLON: Unit := 0x3A
  const MINUS: Unit := 0x2D
  const ZERO: Unit := 0x30
  const OPEN_ARRAY: Unit := 0x5B
  const CLOSE_ARRAY: Unit := 0x5D
  const OPEN_OBJECT: Unit := 0x7B
  const CLOSE_OBJECT: Unit := 0x7D
  const LOWER_U: Unit := 0x75
  const NULL_WORD: Text := [0x6E, 0x75, 0x6C, 0x6C]
  const TRUE_WORD: Text := [0x74, 0x72, 0x75, 0x65]
  const FALSE_WORD: Text := [0x66, 0x61, 0x6C, 0x73, 0x65]

  predicate High(u: Unit) { 0xD800 <= u < 0xDC00 }
  predicate Low(u: Unit) { 0xDC00 <= u < 0xE000 }
  predicate PairAt(s: Text, i: nat) { i + 1 < |s| && High(s[i]) && Low(s[i + 1]) }

  function HexDigit(d: nat): Unit
    requires d < 16
  {
    if d < 10 then 0x30 + d else 0x61 + d - 10
  }

  function UnicodeEscape(u: Unit): Text {
    [BACKSLASH, LOWER_U, HexDigit(u / 4096), HexDigit(u / 256 % 16), HexDigit(u / 16 % 16), HexDigit(u % 16)]
  }

  /** The letter of the two-character escapes of section 7 of RFC 8259 that JSON.stringify uses. */
  function ShortEscape(u: Unit): Option<Unit> {
    match u
    case 0x22 => Some(QUOTE)
    case 0x5C => Some(BACKSLASH)
    case 0x08 => Some(0x62)
    case 0x09 => Some(0x74)
    case 0x0A => Some(0x6E)
    case 0x0C => Some(0x66)
    case 0x0D => Some(0x72)
    case _ => None
  }

  /** One code unit that is not half of a surrogate pair. */
  function EscapeUnit(u: Unit): Text {
    if ShortEscape(u).Some? then [BACKSLASH, ShortEscape(u).value]
    else if u < 0x20 || High(u) || Low(u) then UnicodeEscape(u)
    else [u]
  }

  function Escape(s: Text): Text {
    if s == [] then []
    else if PairAt(s, 0) then [s[0], s[1]] + Escape(s[2..])
    else EscapeUnit(s[0]) + Escape(s[1..])
  }

  /** JSON.stringify of a string. */
  function Quote(s: Text): Text { [QUOTE] + Escape(s) + [QUOTE] }

  function Digits(n: nat): (r: Text)
    ensures r != [] && (r[0] == ZERO ==> n == 0)
    ensures forall i :: 0 <= i < |r| ==> IsDigit(r[i])
  {
    if n < 10 then [ZERO + n] else Digits(n / 10) + [ZERO + n % 10]
  }

  predicate IsDigit(u: Unit) { ZERO <= u <= 0x39 }

  /** JSON.stringify of an integer. */
  function PrintInt(n: int): Text { if n < 0 then [MINUS] + Digits(-n) else Digits(n) }

  // ---------------------------------------------------------------- canonicalize

  /** None where the source throws. */
  function Canonicalize(j: Json): Option<Text> {
    match j
    case Null => Some(NULL_WORD)
    case Bool(b) => Some(if b then TRUE_WORD else FALSE_WORD)
    case Num(n) => Some(PrintInt(n))
    case NonFinite => None
    case Str(s) => Some(Quote(s))
    case Arr(items) => Enclose(OPEN_ARRAY, Items(items), CLOSE_ARRAY)
    case Obj(fields) => Enclose(OPEN_OBJECT, Members(j, Sort(Keys(fields))), CLOSE_OBJECT)
  }

  function Enclose(open: Unit, body: Option<Text>, close: Unit): Option<Text> {
    if body.None? then None else Some([open] + body.value + [close])
  }

  /** One more element in front of a comma-separated list. */
  function Prepend(head: Option<Text>, others: nat, tail: Option<Text>): Option<Text> {
    if head.None? || tail.None? then None
    else Some(head.value + (if others == 0 then [] else [COMMA] + tail.value))
  }

  function Items(items: seq<Json>): Option<Text> {
    if items == [] then Some([]) else Prepend(Canonicalize(items[0]), |items| - 1, Items(items[1..]))
  }

  function Members(j: Json, keys: seq<Text>): Option<Text>
    requires j.Obj? && forall k :: k in keys ==> k in Keys(j.fields)
    decreases j, |keys|
  {
    if keys == [] then Some([]) else
      Prepend(Member(keys[0], Canonicalize(Get(j.fields, keys[0]))), |keys| - 1, Members(j, keys[1..]))
  }

  function Member(key: Text, value: Option<Text>): Option<Text> {
    if value.None? then None else Some(Quote(key) + [COLON] + value.value)
  }

  // ---------------------------------------------------------------- parsing

  function HexValue(u: Unit): Option<nat> {
    if IsDigit(u) then Some(u - ZERO)
    else if 0x61 <= u <= 0x66 then Some(u - 0x61 + 10)
    else if 0x41 <= u <= 0x46 then Some(u - 0x41 + 10)
    else None
  }

  function Unescape(u: Unit): Option<Unit> {
    match u
    case 0x22 => Some(0x22)
    case 0x5C => Some(0x5C)
    case 0x2F => Some(0x2F)
    case 0x62 => Some(0x08)
    case 0x74 => Some(0x09)
    case 0x6E => Some(0x0A)
    case 0x66 => Some(0x0C)
    case 0x72 => Some(0x0D)
    case _ => None
  }

  /** One code unit of a string literal, and the text after it. */
  function ParseUnit(s: Text): (r: Option<(Unit, Text)>)
    ensures r.Some? ==> |r.value.1| < |s|
  {
    if s == [] || s[0] < 0x20 || s[0] == QUOTE then None
    else if s[0] != BACKSLASH then Some((s[0], s[1..]))
    else if |s| >= 6 && s[1] == LOWER_U then
      var (a, b, c, d) := (HexValue(s[2]), HexValue(s[3]), HexValue(s[4]), HexValue(s[5]));
      if a.None? || b.None? || c.None? || d.None? then None
      else
        Some((((a.value * 16 + b.value) * 16 + c.value) * 16 + d.value, s[6..]))
    else if |s| >= 2 && Unescape(s[1]).Some? then Some((Unescape(s[1]).value, s[2..]))
    else None
  }

  /** A string literal after its opening quote. */
  function ParseChars(s: Text): (r: Option<(Text, Text)>)
    ensures r.Some? ==> |r.value.1| < |s|
    decreases |s|
  {
    if s != [] && s[0] == QUOTE then Some(([], s[1..])) else
      var first := ParseUnit(s);
      if first.None? then None else
        var rest := ParseChars(first.value.1);
        if rest.None? then None else Some(([first.value.0] + rest.value.0, rest.value.1))
  }

  function TakeDigits(s: Text, sum: nat): (r: (nat, Text))
    ensures |r.1| <= |s|
  {
    if s != [] && IsDigit(s[0]) then TakeDigits(s[1..], sum * 10 + (s[0] - ZERO)) else (sum, s)
  }

  function ParseNat(s: Text): (r: Option<(nat, Text)>)
    ensures r.Some? ==> |r.value.1| < |s|
  {
    if s == [] || !IsDigit(s[0]) then None
    else if s[0] == ZERO then Some((0, s[1..]))
    else Some(TakeDigits(s[1..], s[0] - ZERO))
  }

  /** A number may be followed by this: nothing that would make it a longer number. */
  predicate EndsNumber(s: Text) { s == [] || !(IsDigit(s[0]) || s[0] in {0x2E, 0x45, 0x65}) }

  function ParseInt(s: Text): (r: Option<(int, Text)>)
    ensures r.Some? ==> |r.value.1| < |s|
  {
    var negative := s != [] && s[0] == MINUS;
    var n := ParseNat(if negative then s[1..] else s);
    if n.None? || !EndsNumber(n.value.1) then None else
      var value: int := n.value.0;
      Some((if negative then -value else value, n.value.1))
  }

  /** The white space of section 2 of RFC 8259. */
  predicate Space(u: Unit) { u in {0x20, 0x09, 0x0A, 0x0D} }

  function Skip(s: Text): (r: Text)
    ensures |r| <= |s| && (r != [] ==> !Space(r[0]))
    ensures s != [] && !Space(s[0]) ==> r == s
  {
    if s != [] && Space(s[0]) then Skip(s[1..]) else s
  }

  function ParseValue(text: Text): (r: Option<(Json, Text)>)
    ensures r.Some? ==> |r.value.1| < |text|
    decreases |text|, 1
  {
    var s := Skip(text);
    if s == [] then None
    else if NULL_WORD <= s then Some((Null, s[4..]))
    else if TRUE_WORD <= s then Some((Bool(true), s[4..]))
    else if FALSE_WORD <= s then Some((Bool(false), s[5..]))
    else if s[0] == QUOTE then
      var r := ParseChars(s[1..]);
      if r.None? then None else Some((Str(r.value.0), r.value.1))
    else if s[0] == OPEN_ARRAY then
      var body := Skip(s[1..]);
      if body != [] && body[0] == CLOSE_ARRAY then Some((Arr([]), body[1..])) else
        var r := ParseItems(body);
        if r.None? then None else Some((Arr(r.value.0), r.value.1))
    else if s[0] == OPEN_OBJECT then
      var body := Skip(s[1..]);
      if body != [] && body[0] == CLOSE_OBJECT then Some((Obj([]), body[1..])) else
        var r := ParseFields(body);
        if r.None? then None else Some((Obj(r.value.0), r.value.1))
    else
      var r := ParseInt(s);
      if r.None? then None else Some((Num(r.value.0), r.value.1))
  }

  /** At least one element, up to the closing bracket. */
  function ParseItems(s: Text): (r: Option<(seq<Json>, Text)>)
    ensures r.Some? ==> |r.value.1| < |s|
    decreases |s|, 2
  {
    var head := ParseValue(s);
    var rest := if head.None? then [] else Skip(head.value.1);
    if head.None? || rest == [] then None
    else if rest[0] == CLOSE_ARRAY then Some(([head.value.0], rest[1..]))
    else if rest[0] != COMMA then None
    else
      var tail := ParseItems(rest[1..]);
      if tail.None? then None else Some(([head.value.0] + tail.value.0, tail.value.1))
  }

  function ParseField(text: Text): (r: Option<(Field, Text)>)
    ensures r.Some? ==> |r.value.1| < |text|
    decreases |text|, 2
  {
    var s := Skip(text);
    if s == [] || s[0] != QUOTE then None else
      var key := ParseChars(s[1..]);
      var after := if key.None? then [] else Skip(key.value.1);
      if key.None? || after == [] || after[0] != COLON then None else
        var value := ParseValue(after[1..]);
        if value.None? then None else Some((Field(key.value.0, value.value.0), value.value.1))
  }

  /** At least one member, up to the closing brace. */
  function ParseFields(s: Text): (r: Option<(seq<Field>, Text)>)
    ensures r.Some? ==> |r.value.1| < |s|
    decreases |s|, 3
  {
    var head := ParseField(s);
    var rest := if head.None? then [] else Skip(head.value.1);
    if head.None? || rest == [] then None
    else if rest[0] == CLOSE_OBJECT then Some(([head.value.0], rest[1..]))
    else if rest[0] != COMMA then None
    else
      var tail := ParseFields(rest[1..]);
      if tail.None? then None else Some(([head.value.0] + tail.value.0, tail.value.1))
  }
}

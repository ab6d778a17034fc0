/** Canonical JSON is uniquely decodable, and depends only on the value it prints. */
module CanonicalJsonTheorems {
  import opened Common
  import opened CanonicalJson

  // ---------------------------------------------------------------- strings

  lemma Nibbles(u: nat)
    ensures ((u / 4096 * 16 + u / 256 % 16) * 16 + u / 16 % 16) * 16 + u % 16 == u
  {
    assert u / 16 / 16 == u / 256 && u / 256 / 16 == u / 4096;
  }

  lemma HexDigitRoundTrip(d: nat)
    requires d < 16
    ensures HexValue(HexDigit(d)) == Some(d)
  {
  }

  lemma HexRoundTrip(u: Unit, tail: Text)
    ensures ParseUnit(UnicodeEscape(u) + tail) == Some((u, tail))
  {
    var s := UnicodeEscape(u) + tail;
    var (a, b, c, d) := (u / 4096, u / 256 % 16, u / 16 % 16, u % 16);
    assert s[0] == BACKSLASH && s[1] == LOWER_U && s[6..] == tail;
    assert s[2] == HexDigit(a) && s[3] == HexDigit(b) && s[4] == HexDigit(c) && s[5] == HexDigit(d);
    HexDigitRoundTrip(a);
    HexDigitRoundTrip(b);
    HexDigitRoundTrip(c);
    HexDigitRoundTrip(d);
    Nibbles(u);
  }

  /** A reader of section 7 of RFC 8259 gets each escaped code unit back. */
  lemma UnitRoundTrip(u: Unit, tail: Text)
    ensures ParseUnit(EscapeUnit(u) + tail) == Some((u, tail))
  {
    if ShortEscape(u).Some? {
      var s := EscapeUnit(u) + tail;
      assert s[0] == BACKSLASH && s[1] == ShortEscape(u).value && s[2..] == tail;
    } else if u < 0x20 || High(u) || Low(u) {
      HexRoundTrip(u, tail);
    } else {
      RawUnit(u, tail);
    }
  }

  /** Of all the ways to write a code unit the printer takes the shortest, and lower-case hexadecimal digits; a lone
    * surrogate alone is escaped although it need not be. */
  lemma ShortestEscape(u: Unit, t: Text)
    requires ParseUnit(t) == Some((u, []))
    ensures !High(u) && !Low(u) ==> |EscapeUnit(u)| <= |t|
    ensures High(u) || Low(u) ==> |EscapeUnit(u)| == 6
    ensures forall i :: 0 <= i < |EscapeUnit(u)| && EscapeUnit(u) != [u] ==>
            !(0x41 <= EscapeUnit(u)[i] <= 0x5A && i > 0)
  {
  }

  lemma RawUnit(u: Unit, tail: Text)
    requires u >= 0x20 && u != QUOTE && u != BACKSLASH
    ensures ParseUnit([u] + tail) == Some((u, tail))
  {
    assert ([u] + tail)[1..] == tail;
  }

  lemma {:induction false} StringRoundTrip(s: Text, tail: Text)
    ensures ParseChars(Escape(s) + [QUOTE] + tail) == Some((s, tail))
  {
    if s == [] {
      CharsEnd(tail);
      assert Escape(s) + [QUOTE] + tail == [QUOTE] + tail;
    } else if PairAt(s, 0) {
      var rest := Escape(s[2..]) + [QUOTE] + tail;
      StringRoundTrip(s[2..], tail);
      PairThenChars(s[0], s[1], rest, s[2..], tail);
      Regroup([s[0], s[1]], Escape(s[2..]), [QUOTE], tail);
      assert s == [s[0], s[1]] + s[2..];
    } else {
      var rest := Escape(s[1..]) + [QUOTE] + tail;
      StringRoundTrip(s[1..], tail);
      UnitRoundTrip(s[0], rest);
      UnitThenChars(EscapeUnit(s[0]), s[0], rest, s[1..], tail);
      Regroup(EscapeUnit(s[0]), Escape(s[1..]), [QUOTE], tail);
      assert s == [s[0]] + s[1..];
    }
  }

  lemma Regroup(a: Text, b: Text, c: Text, d: Text)
    ensures a + b + c + d == a + (b + c + d)
  {
  }

  lemma PairThenChars(u: Unit, v: Unit, rest: Text, more: Text, tail: Text)
    requires High(u) && Low(v) && ParseChars(rest) == Some((more, tail))
    ensures ParseChars([u, v] + rest) == Some(([u, v] + more, tail))
  {
    RawUnit(v, rest);
    UnitThenChars([v], v, rest, more, tail);
    RawUnit(u, [v] + rest);
    UnitThenChars([u], u, [v] + rest, [v] + more, tail);
    assert [u] + ([v] + rest) == [u, v] + rest && [u] + ([v] + more) == [u, v] + more;
  }

  lemma CharsEnd(tail: Text)
    ensures ParseChars([QUOTE] + tail) == Some(([], tail))
  {
    assert ([QUOTE] + tail)[1..] == tail;
  }

  lemma UnitThenChars(printed: Text, u: Unit, rest: Text, more: Text, tail: Text)
    requires printed != [] && printed[0] != QUOTE
    requires ParseUnit(printed + rest) == Some((u, rest)) && ParseChars(rest) == Some((more, tail))
    ensures ParseChars(printed + rest) == Some(([u] + more, tail))
  {
    var s := printed + rest;
    assert s[0] == printed[0];
  }

  /** JSON.stringify leaves well-formed UTF-16: no control character and no lone surrogate,
    * so encoding the text as UTF-8 for hashing loses nothing. */
  ghost predicate Encodable(s: Text) {
    s == [] || if PairAt(s, 0) then Encodable(s[2..])
               else s[0] >= 0x20 && !High(s[0]) && !Low(s[0]) && Encodable(s[1..])
  }

  lemma {:induction false} EncodableConcat(a: Text, b: Text)
    requires Encodable(a) && Encodable(b)
    ensures Encodable(a + b)
  {
    if a == [] {
      assert a + b == b;
    } else if PairAt(a, 0) {
      EncodableConcat(a[2..], b);
      assert (a + b)[2..] == a[2..] + b;
    } else {
      EncodableConcat(a[1..], b);
      assert (a + b)[1..] == a[1..] + b;
    }
  }

  lemma {:induction false} PlainUnitsEncodable(s: Text)
    requires forall i :: 0 <= i < |s| ==> 0x20 <= s[i] < 0xD800
    ensures Encodable(s)
  {
    if s != [] { PlainUnitsEncodable(s[1..]); }
  }

  lemma {:induction false} EscapeEncodable(s: Text)
    ensures Encodable(Escape(s))
  {
    if s == [] {
    } else if PairAt(s, 0) {
      EscapeEncodable(s[2..]);
      var r := [s[0], s[1]] + Escape(s[2..]);
      assert r[2..] == Escape(s[2..]) && PairAt(r, 0);
    } else {
      EscapeEncodable(s[1..]);
      if EscapeUnit(s[0]) == [s[0]] {
        assert ([s[0]] + Escape(s[1..]))[1..] == Escape(s[1..]);
      } else {
        PlainUnitsEncodable(EscapeUnit(s[0]));
        EncodableConcat(EscapeUnit(s[0]), Escape(s[1..]));
      }
    }
  }

  lemma EncloseEncodable(open: Unit, body: Text, close: Unit)
    requires Encodable(body) && 0x20 <= open < 0xD800 && 0x20 <= close < 0xD800
    ensures Encodable([open] + body + [close])
  {
    PlainUnitsEncodable([open]);
    PlainUnitsEncodable([close]);
    EncodableConcat([open], body);
    EncodableConcat([open] + body, [close]);
  }

  lemma {:induction false} OutputEncodable(j: Json)
    requires Canonicalize(j).Some?
    ensures Encodable(Canonicalize(j).value)
  {
    match j
    case Str(s) => EscapeEncodable(s); EncloseEncodable(QUOTE, Escape(s), QUOTE);
    case Arr(items) => ItemsEncodable(items); EncloseEncodable(OPEN_ARRAY, Items(items).value, CLOSE_ARRAY);
    case Obj(fields) =>
      MembersEncodable(j, Sort(Keys(fields)));
      EncloseEncodable(OPEN_OBJECT, Members(j, Sort(Keys(fields))).value, CLOSE_OBJECT);
    case NonFinite =>
    case _ => PlainUnitsEncodable(Canonicalize(j).value);
  }

  lemma {:induction false} ItemsEncodable(items: seq<Json>)
    requires Items(items).Some?
    ensures Encodable(Items(items).value)
  {
    if items != [] {
      OutputEncodable(items[0]);
      ItemsEncodable(items[1..]);
      PrependEncodable(Canonicalize(items[0]).value, |items| - 1, Items(items[1..]).value);
    }
  }

  lemma PrependEncodable(head: Text, others: nat, tail: Text)
    requires Encodable(head) && Encodable(tail)
    ensures Encodable(Prepend(Some(head), others, Some(tail)).value)
  {
    PlainUnitsEncodable([COMMA]);
    EncodableConcat([COMMA], tail);
    EncodableConcat(head, [COMMA] + tail);
    EncodableConcat(head, []);
  }

  lemma {:induction false} MembersEncodable(j: Json, keys: seq<Text>)
    requires j.Obj? && (forall k :: k in keys ==> k in Keys(j.fields)) && Members(j, keys).Some?
    ensures Encodable(Members(j, keys).value)
    decreases j, |keys|
  {
    if keys != [] {
      var value := Get(j.fields, keys[0]);
      OutputEncodable(value);
      EscapeEncodable(keys[0]);
      EncloseEncodable(QUOTE, Escape(keys[0]), QUOTE);
      PlainUnitsEncodable([COLON]);
      EncodableConcat(Quote(keys[0]), [COLON]);
      EncodableConcat(Quote(keys[0]) + [COLON], Canonicalize(value).value);
      MembersEncodable(j, keys[1..]);
      PrependEncodable(Member(keys[0], Canonicalize(value)).value, |keys| - 1, Members(j, keys[1..]).value);
    }
  }

  // ---------------------------------------------------------------- numbers

  lemma {:induction false} DigitsThenMore(n: nat, rest: Text)
    ensures TakeDigits(Digits(n) + rest, 0) == TakeDigits(rest, n)
  {
    if n < 10 {
      assert (Digits(n) + rest)[1..] == rest;
    } else {
      var last := [ZERO + n % 10] + rest;
      DigitsThenMore(n / 10, last);
      assert Digits(n) + rest == Digits(n / 10) + last;
      assert last[1..] == rest;
    }
  }

  lemma NatRoundTrip(n: nat, tail: Text)
    requires EndsNumber(tail)
    ensures ParseNat(Digits(n) + tail) == Some((n, tail))
  {
    var s := Digits(n) + tail;
    DigitsThenMore(n, tail);
    if n == 0 {
      assert s[1..] == tail;
    } else {
      assert s[0] == Digits(n)[0];
    }
  }

  lemma IntRoundTrip(n: int, tail: Text)
    requires EndsNumber(tail)
    ensures ParseInt(PrintInt(n) + tail) == Some((n, tail))
  {
    if n < 0 {
      NatRoundTrip(-n, tail);
      assert (PrintInt(n) + tail)[1..] == Digits(-n) + tail;
    } else {
      NatRoundTrip(n, tail);
      assert IsDigit(Digits(n)[0]) && (Digits(n) + tail)[0] == Digits(n)[0];
    }
  }

  // ---------------------------------------------------------------- values

  /** The value with the fields of every object in key order. */
  function Normal(j: Json): Json {
    match j
    case Arr(items) => Arr(NormalItems(items))
    case Obj(fields) => Obj(NormalFields(j, Sort(Keys(fields))))
    case _ => j
  }

  function NormalItems(items: seq<Json>): (r: seq<Json>)
    ensures |r| == |items|
  {
    if items == [] then [] else [Normal(items[0])] + NormalItems(items[1..])
  }

  function NormalFields(j: Json, keys: seq<Text>): (r: seq<Field>)
    requires j.Obj? && forall k :: k in keys ==> k in Keys(j.fields)
    ensures Keys(r) == keys
    decreases j, |keys|
  {
    if keys == [] then [] else
      [Field(keys[0], Normal(Get(j.fields, keys[0])))] + NormalFields(j, keys[1..])
  }

  /** No printed value begins with white space or like a closing bracket. */
  lemma FirstUnit(j: Json)
    requires Canonicalize(j).Some?
    ensures var t := Canonicalize(j).value; t != [] && t[0] != CLOSE_ARRAY && t[0] != CLOSE_OBJECT && !Space(t[0])
  {
    if j.Num? && j.n >= 0 { assert IsDigit(Digits(j.n)[0]); }
  }

  lemma ReadWord(word: Text, tail: Text)
    requires word in {NULL_WORD, TRUE_WORD, FALSE_WORD}
    ensures ParseValue(word + tail) ==
            Some((if word == NULL_WORD then Null else Bool(word == TRUE_WORD), tail))
  {
    var s := word + tail;
    assert word <= s && s[|word|..] == tail && s[0] == word[0];
  }

  lemma ReadNumber(s: Text, n: int, tail: Text)
    requires ParseInt(s) == Some((n, tail))
    ensures ParseValue(s) == Some((Num(n), tail))
  {
    assert s[0] == MINUS || IsDigit(s[0]);
  }

  lemma ReadString(body: Text, x: Text, tail: Text)
    requires ParseChars(body) == Some((x, tail))
    ensures ParseValue([QUOTE] + body) == Some((Str(x), tail))
  {
    assert ([QUOTE] + body)[1..] == body;
  }

  lemma ReadArray(body: Text, items: seq<Json>, tail: Text)
    requires body != [] && body[0] != CLOSE_ARRAY && !Space(body[0]) && ParseItems(body) == Some((items, tail))
    ensures ParseValue([OPEN_ARRAY] + body) == Some((Arr(items), tail))
  {
    assert ([OPEN_ARRAY] + body)[1..] == body;
  }

  lemma ReadObject(body: Text, fields: seq<Field>, tail: Text)
    requires body != [] && body[0] != CLOSE_OBJECT && !Space(body[0]) && ParseFields(body) == Some((fields, tail))
    ensures ParseValue([OPEN_OBJECT] + body) == Some((Obj(fields), tail))
  {
    assert ([OPEN_OBJECT] + body)[1..] == body;
  }

  lemma ReadEmpty(tail: Text)
    ensures ParseValue([OPEN_ARRAY, CLOSE_ARRAY] + tail) == Some((Arr([]), tail))
    ensures ParseValue([OPEN_OBJECT, CLOSE_OBJECT] + tail) == Some((Obj([]), tail))
  {
    assert ([OPEN_ARRAY, CLOSE_ARRAY] + tail)[2..] == tail;
    assert ([OPEN_OBJECT, CLOSE_OBJECT] + tail)[2..] == tail;
  }

  lemma ReadItems(s: Text, item: Json, after: Text, others: seq<Json>, tail: Text)
    requires if others == [] then ParseValue(s) == Some((item, [CLOSE_ARRAY] + tail))
             else ParseValue(s) == Some((item, [COMMA] + after)) && ParseItems(after) == Some((others, tail))
    ensures ParseItems(s) == Some(([item] + others, tail))
  {
    assert ([CLOSE_ARRAY] + tail)[1..] == tail && ([COMMA] + after)[1..] == after && [item] + [] == [item];
  }

  lemma ReadFields(s: Text, field: Field, after: Text, others: seq<Field>, tail: Text)
    requires if others == [] then ParseField(s) == Some((field, [CLOSE_OBJECT] + tail))
             else ParseField(s) == Some((field, [COMMA] + after)) && ParseFields(after) == Some((others, tail))
    ensures ParseFields(s) == Some(([field] + others, tail))
  {
    assert ([CLOSE_OBJECT] + tail)[1..] == tail && ([COMMA] + after)[1..] == after && [field] + [] == [field];
  }

  lemma ReadNamed(body: Text, key: Text, more: Text, value: Json, rest: Text)
    requires ParseChars(body) == Some((key, [COLON] + more)) && ParseValue(more) == Some((value, rest))
    ensures ParseField([QUOTE] + body) == Some((Field(key, value), rest))
  {
    assert ([QUOTE] + body)[1..] == body && ([COLON] + more)[1..] == more;
  }

  lemma ReadField(key: Text, printed: Text, value: Json, rest: Text)
    requires ParseValue(printed + rest) == Some((value, rest))
    ensures ParseField(Quote(key) + [COLON] + printed + rest) == Some((Field(key, value), rest))
  {
    var after := [COLON] + (printed + rest);
    StringRoundTrip(key, after);
    ReadNamed(Escape(key) + [QUOTE] + after, key, printed + rest, value, rest);
    NamedText(Escape(key), printed, rest);
  }

  lemma NamedText(escaped: Text, printed: Text, rest: Text)
    ensures [QUOTE] + escaped + [QUOTE] + [COLON] + printed + rest
            == [QUOTE] + (escaped + [QUOTE] + ([COLON] + (printed + rest)))
  {
  }

  /** Parsing a canonical text, followed by anything that cannot extend a number, gives the value back. */
  lemma {:induction false} RoundTrip(j: Json, tail: Text)
    requires Canonicalize(j).Some? && EndsNumber(tail)
    ensures ParseValue(Canonicalize(j).value + tail) == Some((Normal(j), tail))
    decreases j
  {
    match j
    case Null => ReadWord(NULL_WORD, tail);
    case Bool(b) => ReadWord(if b then TRUE_WORD else FALSE_WORD, tail);
    case Num(n) =>
      IntRoundTrip(n, tail);
      ReadNumber(PrintInt(n) + tail, n, tail);
    case Str(x) => QuoteRoundTrip(x, tail);
    case Arr(items) => ArrayRoundTrip(items, tail);
    case Obj(fields) => ObjectRoundTrip(j, tail);
    case NonFinite =>
  }

  lemma {:induction false} ArrayRoundTrip(items: seq<Json>, tail: Text)
    requires Items(items).Some?
    ensures ParseValue([OPEN_ARRAY] + Items(items).value + [CLOSE_ARRAY] + tail) ==
            Some((Arr(NormalItems(items)), tail))
    decreases items, 1
  {
    var text := Items(items).value;
    if items == [] {
      assert [OPEN_ARRAY] + [] + [CLOSE_ARRAY] == [OPEN_ARRAY, CLOSE_ARRAY];
      ReadEmpty(tail);
    } else {
      ItemsRoundTrip(items, tail);
      FirstUnit(items[0]);
      ReadArray(text + [CLOSE_ARRAY] + tail, NormalItems(items), tail);
      Regroup([OPEN_ARRAY], text, [CLOSE_ARRAY], tail);
    }
  }

  lemma QuoteRoundTrip(x: Text, tail: Text)
    ensures ParseValue(Quote(x) + tail) == Some((Str(x), tail))
  {
    StringRoundTrip(x, tail);
    ReadString(Escape(x) + [QUOTE] + tail, x, tail);
    assert Quote(x) + tail == [QUOTE] + (Escape(x) + [QUOTE] + tail);
  }

  lemma {:induction false} ObjectRoundTrip(j: Json, tail: Text)
    requires j.Obj? && Canonicalize(j).Some?
    ensures ParseValue(Canonicalize(j).value + tail) == Some((Normal(j), tail))
    decreases j, |j.fields| + 1
  {
    var keys := Sort(Keys(j.fields));
    SortPermutes(Keys(j.fields));
    if j.fields == [] {
      assert Members(j, keys) == Some([]);
      assert [OPEN_OBJECT] + [] + [CLOSE_OBJECT] == [OPEN_OBJECT, CLOSE_OBJECT];
      ReadEmpty(tail);
    } else {
      var text := Members(j, keys).value;
      MembersRoundTrip(j, keys, tail);
      FirstQuote(j, keys);
      ReadObject(text + [CLOSE_OBJECT] + tail, NormalFields(j, keys), tail);
      Regroup([OPEN_OBJECT], text, [CLOSE_OBJECT], tail);
    }
  }

  lemma FirstQuote(j: Json, keys: seq<Text>)
    requires j.Obj? && (forall k :: k in keys ==> k in Keys(j.fields)) && keys != [] && Members(j, keys).Some?
    ensures Members(j, keys).value != [] && Members(j, keys).value[0] == QUOTE
  {
  }

  lemma {:induction false} ItemsRoundTrip(items: seq<Json>, tail: Text)
    requires items != [] && Items(items).Some?
    ensures ParseItems(Items(items).value + [CLOSE_ARRAY] + tail) == Some((NormalItems(items), tail))
    decreases items, 0
  {
    var s := Items(items).value + [CLOSE_ARRAY] + tail;
    var head := Canonicalize(items[0]).value;
    if |items| == 1 {
      RoundTrip(items[0], [CLOSE_ARRAY] + tail);
      Regroup(head, [], [CLOSE_ARRAY], tail);
      assert [] + [CLOSE_ARRAY] + tail == [CLOSE_ARRAY] + tail;
      ReadItems(s, Normal(items[0]), [], [], tail);
      assert NormalItems(items[1..]) == [];
    } else {
      var others := Items(items[1..]).value;
      var more := others + [CLOSE_ARRAY] + tail;
      RoundTrip(items[0], [COMMA] + more);
      ItemsRoundTrip(items[1..], tail);
      Regroup(head, [COMMA] + others, [CLOSE_ARRAY], tail);
      Regroup([COMMA], others, [CLOSE_ARRAY], tail);
      ReadItems(s, Normal(items[0]), more, NormalItems(items[1..]), tail);
    }
  }

  lemma {:induction false} MembersRoundTrip(j: Json, keys: seq<Text>, tail: Text)
    requires j.Obj? && (forall k :: k in keys ==> k in Keys(j.fields)) && keys != [] && Members(j, keys).Some?
    ensures ParseFields(Members(j, keys).value + [CLOSE_OBJECT] + tail) == Some((NormalFields(j, keys), tail))
    decreases j, |keys|
  {
    var s := Members(j, keys).value + [CLOSE_OBJECT] + tail;
    var value := Get(j.fields, keys[0]);
    var printed := Canonicalize(value).value;
    var field := Field(keys[0], Normal(value));
    if |keys| == 1 {
      var rest := [CLOSE_OBJECT] + tail;
      RoundTrip(value, rest);
      ReadField(keys[0], printed, Normal(value), rest);
      Regroup(Quote(keys[0]) + [COLON] + printed, [], [CLOSE_OBJECT], tail);
      assert [] + [CLOSE_OBJECT] + tail == rest;
      ReadFields(s, field, [], [], tail);
      assert NormalFields(j, keys[1..]) == [];
    } else {
      var others := Members(j, keys[1..]).value;
      var more := others + [CLOSE_OBJECT] + tail;
      RoundTrip(value, [COMMA] + more);
      ReadField(keys[0], printed, Normal(value), [COMMA] + more);
      MembersRoundTrip(j, keys[1..], tail);
      Regroup(Quote(keys[0]) + [COLON] + printed, [COMMA] + others, [CLOSE_OBJECT], tail);
      Regroup([COMMA], others, [CLOSE_OBJECT], tail);
      ReadFields(s, field, more, NormalFields(j, keys[1..]), tail);
    }
  }

  // ---------------------------------------------------------------- what the text determines

  /** The map an object stands for, looked up key by key. */
  lemma {:induction false} DenotesByKey(fields: seq<Field>)
    ensures forall k :: k in DenoteFields(fields) <==> k in Keys(fields)
    ensures forall k :: k in Keys(fields) ==> DenoteFields(fields)[k] == Denote(Get(fields, k))
  {
    if fields != [] {
      var last := |fields| - 1;
      DenotesByKey(fields[..last]);
      assert Keys(fields) == Keys(fields[..last]) + [fields[last].key];
    }
  }

  lemma {:induction false} NormalDenotes(j: Json)
    requires WellFormed(j)
    ensures Denote(Normal(j)) == Denote(j)
    decreases j, 1
  {
    match j
    case Arr(items) => NormalItemsDenote(items);
    case Obj(fields) => NormalObjectDenotes(j, NormalFields(j, Sort(Keys(fields))));
    case _ =>
  }

  lemma {:induction false} NormalObjectDenotes(j: Json, sorted: seq<Field>)
    requires j.Obj? && WellFormed(j) && sorted == NormalFields(j, Sort(Keys(j.fields)))
    ensures DenoteFields(sorted) == DenoteFields(j.fields)
    decreases j, 0
  {
    var (fields, keys) := (j.fields, Sort(Keys(j.fields)));
    SortAscends(Keys(fields));
    AscendingDistinct(keys);
    forall k | k in Keys(fields) ensures Denote(Get(sorted, k)) == Denote(Get(fields, k)) {
      NormalFieldsGet(j, keys, k);
      GetWellFormed(fields, k);
      NormalDenotes(Get(fields, k));
    }
    SameKeysSameMap(sorted, fields);
  }

  lemma SameKeysSameMap(a: seq<Field>, b: seq<Field>)
    requires forall k :: k in Keys(a) <==> k in Keys(b)
    requires forall k :: k in Keys(b) ==> Denote(Get(a, k)) == Denote(Get(b, k))
    ensures DenoteFields(a) == DenoteFields(b)
  {
    DenotesByKey(a);
    DenotesByKey(b);
    var (x, y) := (DenoteFields(a), DenoteFields(b));
    assert forall k :: k in x <==> k in y;
    assert forall k :: k in x ==> x[k] == y[k];
  }

  lemma {:induction false} NormalItemsDenote(items: seq<Json>)
    requires forall i :: 0 <= i < |items| ==> WellFormed(items[i])
    ensures DenoteItems(NormalItems(items)) == DenoteItems(items)
    decreases items, 0
  {
    if items != [] {
      NormalDenotes(items[0]);
      NormalItemsDenote(items[1..]);
      assert NormalItems(items)[1..] == NormalItems(items[1..]);
    }
  }

  lemma AscendingDistinct(keys: seq<Text>)
    requires Ascending(keys)
    ensures NoDuplicates(keys)
  {
    forall i, k | 0 <= i < k < |keys| ensures keys[i] != keys[k] { LessTotal(keys[i], keys[k]); }
  }

  lemma GetWellFormed(fields: seq<Field>, k: Text)
    requires k in Keys(fields) && forall i :: 0 <= i < |fields| ==> WellFormed(fields[i].value)
    ensures WellFormed(Get(fields, k))
  {
    var i :| 0 <= i < |fields| && fields[i] == Field(k, Get(fields, k));
  }

  lemma {:induction false} GetDistinct(fields: seq<Field>, i: nat)
    requires NoDuplicates(Keys(fields)) && i < |fields|
    ensures fields[i].key in Keys(fields) && Get(fields, fields[i].key) == fields[i].value
  {
    assert Keys(fields)[i] == fields[i].key;
    var k :| 0 <= k < |fields| && fields[k] == Field(fields[i].key, Get(fields, fields[i].key));
    assert Keys(fields)[k] == fields[k].key;
  }

  lemma {:induction false} NormalFieldsAt(j: Json, keys: seq<Text>, i: nat)
    requires j.Obj? && (forall k :: k in keys ==> k in Keys(j.fields)) && i < |keys|
    ensures NormalFields(j, keys)[i] == Field(keys[i], Normal(Get(j.fields, keys[i])))
  {
    if i > 0 { NormalFieldsAt(j, keys[1..], i - 1); }
  }

  lemma NormalFieldsGet(j: Json, keys: seq<Text>, k: Text)
    requires j.Obj? && (forall k :: k in keys ==> k in Keys(j.fields)) && NoDuplicates(keys) && k in keys
    ensures Get(NormalFields(j, keys), k) == Normal(Get(j.fields, k))
  {
    var i :| 0 <= i < |keys| && keys[i] == k;
    NormalFieldsAt(j, keys, i);
    GetDistinct(NormalFields(j, keys), i);
  }

  /** Values that are equal as maps are printed alike, whatever the insertion order of their keys. */
  lemma {:induction false} EqualValuesPrintAlike(a: Json, b: Json)
    requires WellFormed(a) && WellFormed(b) && Denote(a) == Denote(b)
    ensures Canonicalize(a) == Canonicalize(b)
    decreases a
  {
    match a
    case Arr(items) => EqualItemsPrintAlike(items, b.items);
    case Obj(fields) =>
      var keys := Sort(Keys(fields));
      DenotesByKey(fields);
      DenotesByKey(b.fields);
      SortAscends(Keys(fields));
      SortAscends(Keys(b.fields));
      assert forall k :: k in Keys(fields) <==> k in DenoteFields(fields);
      AscendingUnique(keys, Sort(Keys(b.fields)));
      EqualMembersPrintAlike(a, b, keys);
    case _ =>
  }

  lemma {:induction false} EqualItemsPrintAlike(a: seq<Json>, b: seq<Json>)
    requires forall i :: 0 <= i < |a| ==> WellFormed(a[i])
    requires forall i :: 0 <= i < |b| ==> WellFormed(b[i])
    requires DenoteItems(a) == DenoteItems(b)
    ensures Items(a) == Items(b)
    decreases a
  {
    assert |a| == |DenoteItems(a)| == |b|;
    if a != [] {
      assert DenoteItems(a)[0] == Denote(a[0]) && DenoteItems(a)[1..] == DenoteItems(a[1..]);
      assert DenoteItems(b)[0] == Denote(b[0]) && DenoteItems(b)[1..] == DenoteItems(b[1..]);
      EqualValuesPrintAlike(a[0], b[0]);
      EqualItemsPrintAlike(a[1..], b[1..]);
    }
  }

  lemma {:induction false} EqualMembersPrintAlike(a: Json, b: Json, keys: seq<Text>)
    requires a.Obj? && b.Obj? && WellFormed(a) && WellFormed(b) && Denote(a) == Denote(b)
    requires forall k :: k in keys ==> k in Keys(a.fields) && k in Keys(b.fields)
    ensures Members(a, keys) == Members(b, keys)
    decreases a, |keys|
  {
    if keys != [] {
      DenotesByKey(a.fields);
      DenotesByKey(b.fields);
      GetWellFormed(a.fields, keys[0]);
      GetWellFormed(b.fields, keys[0]);
      EqualValuesPrintAlike(Get(a.fields, keys[0]), Get(b.fields, keys[0]));
      EqualMembersPrintAlike(a, b, keys[1..]);
    }
  }

  /** Equal output means equal values and conversely. */
  lemma {:induction false} EqualTextIffEqualValue(a: Json, b: Json)
    requires WellFormed(a) && WellFormed(b) && Canonicalize(a).Some? && Canonicalize(b).Some?
    ensures Canonicalize(a) == Canonicalize(b) <==> Denote(a) == Denote(b)
  {
    if Denote(a) == Denote(b) { EqualValuesPrintAlike(a, b); }
    if Canonicalize(a) == Canonicalize(b) {
      RoundTrip(a, []);
      RoundTrip(b, []);
      NormalDenotes(a);
      NormalDenotes(b);
    }
  }

  /** canonicalize throws exactly on values that hold a non-finite number. */
  lemma {:induction false} ThrowsIffNonFinite(j: Json)
    requires WellFormed(j)
    ensures Canonicalize(j).Some? <==> Finite(j)
    decreases j
  {
    match j
    case Arr(items) => ItemsThrowIff(items);
    case Obj(fields) =>
      var keys := Sort(Keys(fields));
      MembersThrowIff(j, keys);
      forall i | 0 <= i < |fields| && Canonicalize(j).Some? ensures Finite(fields[i].value) {
        GetDistinct(fields, i);
        assert fields[i].key in keys;
      }
      forall k | k in keys && Finite(j) ensures Finite(Get(fields, k)) {
        var i :| 0 <= i < |fields| && fields[i] == Field(k, Get(fields, k));
      }
    case _ =>
  }

  lemma {:induction false} ItemsThrowIff(items: seq<Json>)
    requires forall i :: 0 <= i < |items| ==> WellFormed(items[i])
    ensures Items(items).Some? <==> forall i :: 0 <= i < |items| ==> Finite(items[i])
    decreases items
  {
    if items != [] {
      ThrowsIffNonFinite(items[0]);
      ItemsThrowIff(items[1..]);
      assert forall i :: 1 <= i < |items| ==> items[i] == items[1..][i - 1];
    }
  }

  lemma {:induction false} MembersThrowIff(j: Json, keys: seq<Text>)
    requires j.Obj? && WellFormed(j) && forall k :: k in keys ==> k in Keys(j.fields)
    ensures Members(j, keys).Some? <==> AllFinite(j.fields, keys)
    decreases j, |keys|
  {
    if keys != [] {
      GetWellFormed(j.fields, keys[0]);
      ThrowsIffNonFinite(Get(j.fields, keys[0]));
      MembersThrowIff(j, keys[1..]);
      AllFiniteSplits(j.fields, keys);
    }
  }

  ghost predicate AllFinite(fields: seq<Field>, keys: seq<Text>)
    requires forall k :: k in keys ==> k in Keys(fields)
  {
    forall k :: k in keys ==> Finite(Get(fields, k))
  }

  lemma AllFiniteSplits(fields: seq<Field>, keys: seq<Text>)
    requires keys != [] && forall k :: k in keys ==> k in Keys(fields)
    ensures AllFinite(fields, keys) <==> Finite(Get(fields, keys[0])) && AllFinite(fields, keys[1..])
  {
    assert forall k :: k in keys <==> k == keys[0] || k in keys[1..];
  }

  /** The members of a printed object appear in strictly ascending order of code units
    * (section 3.2.3 of RFC 8785), each key of the object exactly once. */
  lemma MembersInOrder(fields: seq<Field>)
    requires WellFormed(Obj(fields)) && Canonicalize(Obj(fields)).Some?
    ensures var read := ParseValue(Canonicalize(Obj(fields)).value);
            && read.Some? && read.value.0.Obj? && read.value.1 == []
            && Ascending(Keys(read.value.0.fields))
            && multiset(Keys(read.value.0.fields)) == multiset(Keys(fields))
  {
    var t := Canonicalize(Obj(fields)).value;
    RoundTrip(Obj(fields), []);
    assert t + [] == t;
    SortAscends(Keys(fields));
    SortPermutes(Keys(fields));
  }
}

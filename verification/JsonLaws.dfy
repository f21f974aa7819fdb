/** What printing and reading owe each other: a round trip, and no reading of a torn object. */
module JsonLaws {
  import opened Options
  import opened Text
  import opened Json

  // ---------- Reading looks no further than it consumes ----------

  lemma {:induction false} SkipSpaceExtends(s: string, x: string)
    requires SkipSpace(s) != []
    ensures SkipSpace(s + x) == SkipSpace(s) + x
  {
    if IsSpace(s[0]) {
      assert (s + x)[1..] == s[1..] + x;
      SkipSpaceExtends(s[1..], x);
    }
  }

  lemma {:induction false} SpanNumberExtends(s: string, x: string)
    requires SpanNumber(s).1 != []
    ensures SpanNumber(s + x) == (SpanNumber(s).0, SpanNumber(s).1 + x)
  {
    if s != [] && IsNumChar(s[0]) {
      assert (s + x)[1..] == s[1..] + x;
      SpanNumberExtends(s[1..], x);
    }
  }

  lemma {:induction false} ReadStringExtends(s: string, x: string)
    requires ReadString(s).Ok?
    ensures ReadString(s + x) == Ok(ReadString(s).value, ReadString(s).rest + x)
    decreases |s|
  {
    if s[0] == '"' {
      assert (s + x)[1..] == s[1..] + x;
    } else if s[0] != '\\' {
      assert (s + x)[1..] == s[1..] + x;
      ReadStringExtends(s[1..], x);
    } else if s[1] == 'u' {
      assert (s + x)[6..] == s[6..] + x;
      assert UnicodeEscape((s + x)[2..]) == UnicodeEscape(s[2..]);
      ReadStringExtends(s[6..], x);
    } else {
      assert (s + x)[2..] == s[2..] + x;
      ReadStringExtends(s[2..], x);
    }
  }

  /** Only a number can run on into later text. */
  predicate MayRunOn(s: string)
  {
    s != [] && (s[0] == '-' || IsDigit(s[0]))
  }

  lemma {:induction false} ReadValueExtends(s: string, x: string)
    requires ReadValue(s).Ok? && (MayRunOn(s) ==> ReadValue(s).rest != [])
    ensures ReadValue(s + x) == Ok(ReadValue(s).value, ReadValue(s).rest + x)
    decreases |s|, 1
  {
    assert (s + x)[1..] == s[1..] + x;
    if s[0] == '"' {
      ReadStringExtends(s[1..], x);
    } else if s[0] == '{' || s[0] == '[' {
      var t := SkipSpace(s[1..]);
      SkipSpaceExtends(s[1..], x);
      assert (t + x)[1..] == t[1..] + x;
      if s[0] == '{' && t[0] != '}' { ReadFieldsExtends(t, x); }
      if s[0] == '[' && t[0] != ']' { ReadItemsExtends(t, x); }
    } else if s[0] == 'n' {
      ReadWordExtends(s, "null", Null, x);
    } else if s[0] == 't' {
      ReadWordExtends(s, "true", Bool(true), x);
    } else if s[0] == 'f' {
      ReadWordExtends(s, "false", Bool(false), x);
    } else {
      SpanNumberExtends(s, x);
    }
  }

  lemma ReadWordExtends(s: string, word: string, v: Json, x: string)
    requires word != [] && ReadWord(s, word, v).Ok?
    ensures ReadWord(s + x, word, v) == Ok(v, ReadWord(s, word, v).rest + x)
  {
    assert (s + x)[|word|..] == s[|word|..] + x;
  }

  lemma {:induction false} ReadItemsExtends(s: string, x: string)
    requires ReadItems(s).Ok?
    ensures ReadItems(s + x) == Ok(ReadItems(s).value, ReadItems(s).rest + x)
    decreases |s|, 2
  {
    var Ok(v, r) := ReadValue(s);
    ReadValueExtends(s, x);
    SkipSpaceExtends(r, x);
    ReadItemsTailExtends(v, SkipSpace(r), x);
  }

  lemma {:induction false} ReadItemsTailExtends(v: Json, t: string, x: string)
    requires ReadItemsTail(v, t).Ok?
    ensures ReadItemsTail(v, t + x) == Ok(ReadItemsTail(v, t).value, ReadItemsTail(v, t).rest + x)
    decreases |t|, 4
  {
    assert (t + x)[1..] == t[1..] + x;
    if t[0] == ',' {
      SkipSpaceExtends(t[1..], x);
      ReadItemsExtends(SkipSpace(t[1..]), x);
    }
  }

  lemma {:induction false} ReadFieldExtends(s: string, x: string)
    requires ReadField(s).Ok? && ReadField(s).rest != []
    ensures ReadField(s + x) == Ok(ReadField(s).value, ReadField(s).rest + x)
    decreases |s|, 2
  {
    assert (s + x)[1..] == s[1..] + x;
    ReadStringExtends(s[1..], x);
    var r := ReadString(s[1..]).rest;
    SkipSpaceExtends(r, x);
    var t := SkipSpace(r);
    assert (t + x)[1..] == t[1..] + x;
    SkipSpaceExtends(t[1..], x);
    ReadValueExtends(SkipSpace(t[1..]), x);
  }

  lemma {:induction false} ReadFieldsExtends(s: string, x: string)
    requires ReadFields(s).Ok?
    ensures ReadFields(s + x) == Ok(ReadFields(s).value, ReadFields(s).rest + x)
    decreases |s|, 3
  {
    var Ok(kv, r) := ReadField(s);
    ReadFieldExtends(s, x);
    SkipSpaceExtends(r, x);
    ReadFieldsTailExtends(kv.0, kv.1, SkipSpace(r), x);
  }

  lemma {:induction false} ReadFieldsTailExtends(k: string, v: Json, t: string, x: string)
    requires ReadFieldsTail(k, v, t).Ok?
    ensures ReadFieldsTail(k, v, t + x) == Ok(ReadFieldsTail(k, v, t).value, ReadFieldsTail(k, v, t).rest + x)
    decreases |t|, 4
  {
    assert (t + x)[1..] == t[1..] + x;
    if t[0] == ',' {
      SkipSpaceExtends(t[1..], x);
      ReadFieldsExtends(SkipSpace(t[1..]), x);
    }
  }

  // ---------- Round trip ----------

  lemma {:induction false} ReadEscapedChar(c: char, x: string)
    requires ReadString(x).Ok?
    ensures ReadString(EscapeChar(c) + x) == Ok([c] + ReadString(x).value, ReadString(x).rest)
  {
    var e := EscapeChar(c);
    if |e| == 1 {
      assert (e + x)[1..] == x;
    } else if |e| == 2 {
      assert (e + x)[2..] == x;
      assert ShortEscape(e[1]) == Some(c);
    } else {
      assert (e + x)[6..] == x;
      ControlEscape(c, x);
    }
  }

  lemma ControlEscape(c: char, x: string)
    requires |EscapeChar(c)| > 2
    ensures UnicodeEscape((EscapeChar(c) + x)[2..]) == Some(c)
  {
    var (hi, lo) := (c as int / 16, c as int % 16);
    assert HexValue(DIGITS[hi]) == Some(hi) && HexValue(DIGITS[lo]) == Some(lo);
    var e := (EscapeChar(c) + x)[2..];
    assert e[0] == '0' && e[1] == '0' && e[2] == DIGITS[hi] && e[3] == DIGITS[lo];
    assert hi * 16 + lo == c as int;
  }

  /** Concatenation is associative; named so that proofs can ask for one instance. */
  lemma Cat(a: string, b: string, c: string)
    ensures a + b + c == a + (b + c)
  {
  }

  lemma {:induction false} ReadQuoted(s: string, x: string)
    ensures ReadString(Escape(s) + ("\"" + x)) == Ok(s, x)
  {
    if s == [] {
      assert Escape(s) + ("\"" + x) == "\"" + x && ("\"" + x)[1..] == x;
    } else {
      ReadQuoted(s[1..], x);
      ReadEscapedChar(s[0], Escape(s[1..]) + ("\"" + x));
      Cat(EscapeChar(s[0]), Escape(s[1..]), "\"" + x);
      assert [s[0]] + s[1..] == s;
    }
  }

  lemma ReadQuote(s: string, x: string)
    ensures Quote(s) + x != [] && (Quote(s) + x)[0] == '"'
    ensures ReadString((Quote(s) + x)[1..]) == Ok(s, x)
  {
    ReadQuoted(s, x);
    Cat("\"" + Escape(s), "\"", x);
    Cat("\"", Escape(s), "\"" + x);
    assert (Quote(s) + x)[1..] == Escape(s) + ("\"" + x);
  }

  /** A printed value starts with a character that is neither space nor a closing bracket. */
  lemma PrintStarts(v: Json, x: string)
    requires WellFormed(v)
    ensures Print(v) != [] && Print(v)[0] != ']' && Print(v)[0] != '}' && !IsSpace(Print(v)[0])
    ensures SkipSpace(Print(v) + x) == Print(v) + x
    ensures MayRunOn(Print(v)) ==> v.Num?
  {
  }

  lemma {:induction false} SpanNumberToken(t: string, x: string)
    requires (forall i :: 0 <= i < |t| ==> IsNumChar(t[i])) && (x == [] || !IsNumChar(x[0]))
    ensures SpanNumber(t + x) == (t, x)
  {
    if t == [] {
      assert t + x == x;
    } else {
      assert (t + x)[1..] == t[1..] + x;
      SpanNumberToken(t[1..], x);
      assert [t[0]] + t[1..] == t;
    }
  }

  predicate Delimits(x: string)
  {
    x == [] || !IsNumChar(x[0])
  }

  lemma QuoteStarts(s: string)
    ensures Quote(s) != [] && Quote(s)[0] == '"'
  {
  }

  lemma ReadFieldStep(s: string, k: string, body: string)
    requires s != [] && s[0] == '"' && ReadString(s[1..]) == Ok(k, ":" + body)
    requires SkipSpace(body) == body && ReadValue(body).Ok?
    ensures ReadField(s) == Ok((k, ReadValue(body).value), ReadValue(body).rest)
  {
    assert (":" + body)[1..] == body && SkipSpace(":" + body) == ":" + body;
  }

  lemma ReadObjStep(body: string)
    requires body != [] && (body[0] == '}' || body[0] == '"')
    ensures body[0] == '}' ==> ReadValue("{" + body) == Ok(Obj(NoFields), body[1..])
    ensures body[0] != '}' && ReadFields(body).Ok? ==>
      ReadValue("{" + body) == Ok(Obj(ReadFields(body).value), ReadFields(body).rest)
  {
    assert ("{" + body)[1..] == body && !IsSpace(body[0]);
  }

  lemma ReadArrStep(body: string)
    requires body != [] && !IsSpace(body[0])
    ensures body[0] == ']' ==> ReadValue("[" + body) == Ok(Arr(NoItems), body[1..])
    ensures body[0] != ']' && ReadItems(body).Ok? ==>
      ReadValue("[" + body) == Ok(Arr(ReadItems(body).value), ReadItems(body).rest)
  {
    assert ("[" + body)[1..] == body;
  }

  lemma ReadScalar(v: Json, x: string)
    requires WellFormed(v) && !v.Arr? && !v.Obj? && (v.Num? ==> Delimits(x))
    ensures ReadValue(Print(v) + x) == Ok(v, x)
  {
    match v
    case Null => assert ("null" + x)[4..] == x;
    case Bool(b) => assert (Print(v) + x)[|Print(v)|..] == x;
    case Num(t) => SpanNumberToken(t, x);
    case Str(t) => ReadQuote(t, x);
  }

  /** Reading a printed value gives the value back, whatever follows it. */
  lemma {:induction false} ReadPrint(v: Json, x: string)
    requires WellFormed(v) && (v.Num? ==> Delimits(x))
    ensures ReadValue(Print(v) + x) == Ok(v, x)
    decreases v, 2
  {
    if v.Arr? {
      ReadPrintArr(v.items, x);
    } else if v.Obj? {
      ReadPrintObj(v.fields, x);
    } else {
      ReadScalar(v, x);
    }
  }

  lemma {:induction false} ReadPrintArr(items: Items, x: string)
    requires WellFormedItems(items)
    ensures ReadValue(Print(Arr(items)) + x) == Ok(Arr(items), x)
    decreases items, 6
  {
    var body := PrintItems(items) + ("]" + x);
    assert Print(Arr(items)) + x == "[" + body;
    if items.NoItems? {
      assert body == "]" + x && body[1..] == x;
    } else {
      PrintStarts(items.head, "");
      SplitItems(items, x);
      assert body[0] == Print(items.head)[0];
      ReadPrintItems(items, x);
    }
    ReadArrStep(body);
  }

  lemma {:induction false} ReadPrintObj(fields: Fields, x: string)
    requires WellFormedFields(fields)
    ensures ReadValue(Print(Obj(fields)) + x) == Ok(Obj(fields), x)
    decreases fields, 6
  {
    var body := PrintFields(fields) + ("}" + x);
    assert Print(Obj(fields)) + x == "{" + body;
    if fields.NoFields? {
      assert body == "}" + x && body[1..] == x;
    } else {
      SplitFields(fields, x);
      QuoteStarts(fields.key);
      assert body[0] == Quote(fields.key)[0];
      ReadPrintFields(fields, x);
    }
    ReadObjStep(body);
  }

  /** What follows the first element of a printed list. */
  function AfterItem(tail: Items, x: string): string
  {
    if tail.NoItems? then "]" + x else "," + (PrintItems(tail) + ("]" + x))
  }

  lemma SplitItems(items: Items, x: string)
    requires items.Item?
    ensures PrintItems(items) + ("]" + x) == Print(items.head) + AfterItem(items.tail, x)
  {
    var p := Print(items.head);
    if items.tail.NoItems? {
      assert p + "" == p;
    } else {
      Cat(p, "," + PrintItems(items.tail), "]" + x);
      Cat(",", PrintItems(items.tail), "]" + x);
    }
  }

  lemma {:induction false} ReadPrintItems(items: Items, x: string)
    requires WellFormedItems(items) && items.Item?
    ensures ReadItems(PrintItems(items) + ("]" + x)) == Ok(items, x)
    decreases items, 4
  {
    var after := AfterItem(items.tail, x);
    SplitItems(items, x);
    ReadPrint(items.head, after);
    assert SkipSpace(after) == after;
    ReadPrintItemsTail(items.head, items.tail, x);
  }

  lemma {:induction false} ReadPrintItemsTail(v: Json, tail: Items, x: string)
    requires WellFormedItems(tail)
    ensures ReadItemsTail(v, AfterItem(tail, x)) == Ok(Item(v, tail), x)
    decreases tail, 5
  {
    var after := AfterItem(tail, x);
    if tail.NoItems? {
      assert after[1..] == x;
    } else {
      assert after[1..] == PrintItems(tail) + ("]" + x);
      SplitItems(tail, x);
      PrintStarts(tail.head, AfterItem(tail.tail, x));
      ReadPrintItems(tail, x);
    }
  }

  lemma {:induction false} ReadPrintField(k: string, v: Json, after: string)
    requires WellFormed(v) && (v.Num? ==> Delimits(after))
    ensures ReadField(Quote(k) + (":" + (Print(v) + after))) == Ok((k, v), after)
    decreases v, 3
  {
    ReadPrint(v, after);
    ReadQuote(k, ":" + (Print(v) + after));
    PrintStarts(v, after);
    ReadFieldStep(Quote(k) + (":" + (Print(v) + after)), k, Print(v) + after);
  }

  /** What follows the first field of a printed object. */
  function AfterField(more: Fields, x: string): string
  {
    if more.NoFields? then "}" + x else "," + (PrintFields(more) + ("}" + x))
  }

  lemma SplitFields(fields: Fields, x: string)
    requires fields.Field?
    ensures PrintFields(fields) + ("}" + x)
         == Quote(fields.key) + (":" + (Print(fields.value) + AfterField(fields.more, x)))
  {
    var (q, p) := (Quote(fields.key), Print(fields.value));
    var rest := if fields.more.NoFields? then "" else "," + PrintFields(fields.more);
    Cat(q + ":" + p, rest, "}" + x);
    Cat(q + ":", p, rest + ("}" + x));
    Cat(q, ":", p + (rest + ("}" + x)));
    if fields.more.Field? {
      Cat(",", PrintFields(fields.more), "}" + x);
    } else {
      assert "" + ("}" + x) == "}" + x;
    }
  }

  lemma {:induction false} ReadPrintFields(fields: Fields, x: string)
    requires WellFormedFields(fields) && fields.Field?
    ensures ReadFields(PrintFields(fields) + ("}" + x)) == Ok(fields, x)
    decreases fields, 4
  {
    var after := AfterField(fields.more, x);
    SplitFields(fields, x);
    ReadPrintField(fields.key, fields.value, after);
    assert SkipSpace(after) == after;
    ReadPrintFieldsTail(fields.key, fields.value, fields.more, x);
  }

  lemma {:induction false} ReadPrintFieldsTail(k: string, v: Json, more: Fields, x: string)
    requires WellFormedFields(more)
    ensures ReadFieldsTail(k, v, AfterField(more, x)) == Ok(Field(k, v, more), x)
    decreases more, 5
  {
    var after := AfterField(more, x);
    if more.NoFields? {
      assert after[1..] == x;
    } else {
      var next := PrintFields(more) + ("}" + x);
      assert after[1..] == next;
      SplitFields(more, x);
      assert next[0] == '"' && SkipSpace(next) == next;
      ReadPrintFields(more, x);
    }
  }

  lemma LoadsPrint(v: Json)
    requires WellFormed(v)
    ensures Loads(Print(v)) == Some(v)
    ensures Loads(Print(v) + "\n") == Some(v)
  {
    assert Print(v) + "" == Print(v);
    PrintStarts(v, "");
    PrintStarts(v, "\n");
    ReadPrint(v, "");
    ReadPrint(v, "\n");
  }

  lemma TornObjectStops(fields: Fields, p: string, x: string)
    requires WellFormedFields(fields) && p + x == Print(Obj(fields)) && x != []
    requires p != [] && p[0] == '{'
    ensures ReadValue(p).Fail?
  {
    ReadPrintObj(fields, "");
    assert Print(Obj(fields)) + "" == Print(Obj(fields));
    if ReadValue(p).Ok? { ReadValueExtends(p, x); }
  }

  /** No proper prefix of a printed object is itself a JSON text. */
  lemma TornObjectUnreadable(fields: Fields, p: string)
    requires WellFormedFields(fields) && p < Print(Obj(fields))
    ensures Loads(p) == None
  {
    var x := Print(Obj(fields))[|p|..];
    assert p + x == Print(Obj(fields)) && x != [];
    if p != [] {
      assert p[0] == Print(Obj(fields))[0] == '{' && SkipSpace(p) == p;
      TornObjectStops(fields, p, x);
    }
  }
}

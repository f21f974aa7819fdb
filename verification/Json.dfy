/** Compact JSON printing and strict JSON reading (RFC 8259), as `json.dumps` and `json.loads` do for queue records. */
module Json {
  import opened Options
  import opened Text

  datatype Json =
    | Null
    | Bool(b: bool)
    | Num(token: string)
    | Str(text: string)
    | Arr(items: Items)
    | Obj(fields: Fields)
  datatype Items = NoItems | Item(head: Json, tail: Items)
  datatype Fields = NoFields | Field(key: string, value: Json, more: Fields)

  datatype Parsed<+T> = Fail | Ok(value: T, rest: string)

  // ---------- Characters and tokens ----------

  predicate IsSpace(c: char)
  {
    c == ' ' || c == '\t' || c == '\n' || c == '\r'
  }

  function SkipSpace(s: string): (r: string)
    ensures |r| <= |s|
  {
    if s != [] && IsSpace(s[0]) then SkipSpace(s[1..]) else s
  }

  predicate IsNumChar(c: char)
  {
    IsDigit(c) || c == '-' || c == '+' || c == '.' || c == 'e' || c == 'E'
  }

  /** A JSON number as sign, digits and power of ten: `mantissa * 10^exponent`. */
  datatype Decimal = Decimal(negative: bool, mantissa: nat, exponent: int)

  /** Section 6 of RFC 8259: optional minus, integer without leading zero, optional fraction, optional exponent. */
  function ReadNumber(t: string): Option<Decimal>
  {
    var neg := t != [] && t[0] == '-';
    var (whole, s) := SpanDigits(if neg then t[1..] else t);
    if whole == "" || (|whole| > 1 && whole[0] == '0') then None else
      var dotted := s != [] && s[0] == '.';
      var (frac, e) := if dotted then SpanDigits(s[1..]) else ("", s);
      if dotted && frac == "" then None else
        var mantissa := ParseNat(whole + frac);
        if e == [] then Some(Decimal(neg, mantissa, -|frac|))
        else if e[0] != 'e' && e[0] != 'E' then None
        else
          var signed := |e| > 1 && (e[1] == '+' || e[1] == '-');
          var (digits, rest) := SpanDigits(if signed then e[2..] else e[1..]);
          if digits == "" || rest != "" then None
          else
            var power: int := ParseNat(digits);
            Some(Decimal(neg, mantissa, (if signed && e[1] == '-' then -power else power) - |frac|))
  }

  predicate IsNumber(t: string)
  {
    && t != [] && (t[0] == '-' || IsDigit(t[0]))
    && (forall i :: 0 <= i < |t| ==> IsNumChar(t[i]))
    && ReadNumber(t).Some?
  }

  function SpanNumber(s: string): (r: (string, string))
    ensures r.0 + r.1 == s
    ensures s != [] && IsNumChar(s[0]) ==> r.0 != ""
  {
    if s != [] && IsNumChar(s[0]) then
      var r := SpanNumber(s[1..]);
      ([s[0]] + r.0, r.1)
    else
      ("", s)
  }

  function HexValue(c: char): Option<nat>
  {
    if '0' <= c <= '9' then Some((c as int - '0' as int) as nat)
    else if 'a' <= c <= 'f' then Some((c as int - 'a' as int + 10) as nat)
    else if 'A' <= c <= 'F' then Some((c as int - 'A' as int + 10) as nat)
    else None
  }

  /** The character a four-digit escape names; surrogate halves name none. */
  function UnicodeEscape(s: string): Option<char>
    requires |s| >= 4
  {
    match (HexValue(s[0]), HexValue(s[1]), HexValue(s[2]), HexValue(s[3]))
    case (Some(a), Some(b), Some(c), Some(d)) =>
      var code := a * 4096 + b * 256 + c * 16 + d;
      if 0 <= code < 0xD800 || 0xE000 <= code < 0x10000 then Some(code as char) else None
    case _ => None
  }

  // ---------- Printing ----------

  function EscapeChar(c: char): string
  {
    if c == '"' then "\\\""
    else if c == '\\' then "\\\\"
    else if c == '\n' then "\\n"
    else if c == '\r' then "\\r"
    else if c == '\t' then "\\t"
    else if c as int == 8 then "\\b"
    else if c as int == 12 then "\\f"
    else if (c as int) < 32 then "\\u00" + [DIGITS[c as int / 16], DIGITS[c as int % 16]]
    else [c]
  }

  function Escape(s: string): string
  {
    if s == [] then [] else EscapeChar(s[0]) + Escape(s[1..])
  }

  function Quote(s: string): string
  {
    "\"" + Escape(s) + "\""
  }

  function Print(v: Json): string
  {
    match v
    case Null => "null"
    case Bool(b) => if b then "true" else "false"
    case Num(t) => t
    case Str(s) => Quote(s)
    case Arr(items) => "[" + PrintItems(items) + "]"
    case Obj(fields) => "{" + PrintFields(fields) + "}"
  }

  function PrintItems(items: Items): string
  {
    match items
    case NoItems => ""
    case Item(v, tail) => Print(v) + (if tail.NoItems? then "" else "," + PrintItems(tail))
  }

  function PrintFields(fields: Fields): string
  {
    match fields
    case NoFields => ""
    case Field(k, v, more) => Quote(k) + ":" + Print(v) + (if more.NoFields? then "" else "," + PrintFields(more))
  }

  /** Every number in the value is a legal token. */
  predicate WellFormed(v: Json)
  {
    match v
    case Num(t) => IsNumber(t)
    case Arr(items) => WellFormedItems(items)
    case Obj(fields) => WellFormedFields(fields)
    case _ => true
  }

  predicate WellFormedItems(items: Items)
  {
    items.Item? ==> WellFormed(items.head) && WellFormedItems(items.tail)
  }

  predicate WellFormedFields(fields: Fields)
  {
    fields.Field? ==> WellFormed(fields.value) && WellFormedFields(fields.more)
  }

  // ---------- Reading ----------

  /** The rest of a string literal, after its opening quote. */
  function ReadString(s: string): (r: Parsed<string>)
    ensures r.Ok? ==> |r.rest| < |s|
    decreases |s|, 1
  {
    if s == [] then Fail
    else if s[0] == '"' then Ok("", s[1..])
    else if s[0] == '\\' then ReadEscape(s)
    else if (s[0] as int) < 32 then Fail
    else match ReadString(s[1..]) case Fail => Fail case Ok(t, r) => Ok([s[0]] + t, r)
  }

  function ReadEscape(s: string): (r: Parsed<string>)
    requires s != [] && s[0] == '\\'
    ensures r.Ok? ==> |r.rest| < |s|
    decreases |s|, 0
  {
    if |s| < 2 then Fail
    else if s[1] == 'u' then
      if |s| < 6 || UnicodeEscape(s[2..]).None? then Fail
      else match ReadString(s[6..]) case Fail => Fail case Ok(t, r) => Ok([UnicodeEscape(s[2..]).value] + t, r)
    else if ShortEscape(s[1]).None? then Fail
    else match ReadString(s[2..]) case Fail => Fail case Ok(t, r) => Ok([ShortEscape(s[1]).value] + t, r)
  }

  function ShortEscape(c: char): Option<char>
  {
    match c
    case '"' => Some('"')
    case '\\' => Some('\\')
    case '/' => Some('/')
    case 'b' => Some(8 as char)
    case 'f' => Some(12 as char)
    case 'n' => Some('\n')
    case 'r' => Some('\r')
    case 't' => Some('\t')
    case _ => None
  }

  function ReadWord(s: string, word: string, v: Json): (r: Parsed<Json>)
    requires word != []
    ensures r.Ok? ==> |r.rest| < |s|
  {
    if word <= s then Ok(v, s[|word|..]) else Fail
  }

  function ReadNum(s: string): (r: Parsed<Json>)
    requires s != [] && IsNumChar(s[0])
    ensures r.Ok? ==> |r.rest| < |s|
  {
    var (t, rest) := SpanNumber(s);
    if IsNumber(t) then Ok(Num(t), rest) else Fail
  }

  function ReadValue(s: string): (r: Parsed<Json>)
    ensures r.Ok? ==> |r.rest| < |s|
    decreases |s|, 1
  {
    if s == [] then Fail
    else if s[0] == '"' then
      match ReadString(s[1..]) case Fail => Fail case Ok(t, r) => Ok(Str(t), r)
    else if s[0] == '{' then
      var t := SkipSpace(s[1..]);
      if t != [] && t[0] == '}' then Ok(Obj(NoFields), t[1..])
      else match ReadFields(t) case Fail => Fail case Ok(f, r) => Ok(Obj(f), r)
    else if s[0] == '[' then
      var t := SkipSpace(s[1..]);
      if t != [] && t[0] == ']' then Ok(Arr(NoItems), t[1..])
      else match ReadItems(t) case Fail => Fail case Ok(i, r) => Ok(Arr(i), r)
    else if s[0] == 'n' then ReadWord(s, "null", Null)
    else if s[0] == 't' then ReadWord(s, "true", Bool(true))
    else if s[0] == 'f' then ReadWord(s, "false", Bool(false))
    else if s[0] == '-' || IsDigit(s[0]) then ReadNum(s)
    else Fail
  }

  /** One or more array elements and the closing bracket. */
  function ReadItems(s: string): (r: Parsed<Items>)
    ensures r.Ok? ==> |r.rest| < |s|
    decreases |s|, 2
  {
    match ReadValue(s)
    case Fail => Fail
    case Ok(v, r) => ReadItemsTail(v, SkipSpace(r))
  }

  /** What may follow an element: the closing bracket, or a comma and more elements. */
  function ReadItemsTail(v: Json, t: string): (r: Parsed<Items>)
    ensures r.Ok? ==> |r.rest| < |t|
    decreases |t|, 4
  {
    if t == [] then Fail
    else if t[0] == ']' then Ok(Item(v, NoItems), t[1..])
    else if t[0] != ',' then Fail
    else match ReadItems(SkipSpace(t[1..])) case Fail => Fail case Ok(more, r) => Ok(Item(v, more), r)
  }

  /** A quoted key, a colon, and the value that follows. */
  function ReadField(s: string): (r: Parsed<(string, Json)>)
    ensures r.Ok? ==> |r.rest| < |s|
    decreases |s|, 2
  {
    if s == [] || s[0] != '"' then Fail
    else match ReadString(s[1..])
      case Fail => Fail
      case Ok(k, r) =>
        var t := SkipSpace(r);
        if t == [] || t[0] != ':' then Fail
        else match ReadValue(SkipSpace(t[1..])) case Fail => Fail case Ok(v, r') => Ok((k, v), r')
  }

  /** One or more fields and the closing brace. */
  function ReadFields(s: string): (r: Parsed<Fields>)
    ensures r.Ok? ==> |r.rest| < |s|
    decreases |s|, 3
  {
    match ReadField(s)
    case Fail => Fail
    case Ok(kv, r) => ReadFieldsTail(kv.0, kv.1, SkipSpace(r))
  }

  /** What may follow a field: the closing brace, or a comma and more fields. */
  function ReadFieldsTail(k: string, v: Json, t: string): (r: Parsed<Fields>)
    ensures r.Ok? ==> |r.rest| < |t|
    decreases |t|, 4
  {
    if t == [] then Fail
    else if t[0] == '}' then Ok(Field(k, v, NoFields), t[1..])
    else if t[0] != ',' then Fail
    else match ReadFields(SkipSpace(t[1..])) case Fail => Fail case Ok(more, r) => Ok(Field(k, v, more), r)
  }

  /** `json.loads`: one value, with only white space around it. */
  function Loads(s: string): Option<Json>
  {
    match ReadValue(SkipSpace(s))
    case Fail => None
    case Ok(v, r) => if SkipSpace(r) == [] then Some(v) else None
  }
}

/** UTC instants as the control plane stores them: text, compared as text. */
module Timestamps {
  import opened Text

  datatype DateTime = DateTime(year: nat, month: nat, day: nat, hour: nat, minute: nat, second: nat, micro: nat)

  predicate IsLeap(y: nat)
  {
    y % 4 == 0 && (y % 100 != 0 || y % 400 == 0)
  }

  function DaysInMonth(y: nat, m: nat): nat
  {
    if m == 2 then (if IsLeap(y) then 29 else 28)
    else if m == 4 || m == 6 || m == 9 || m == 11 then 30
    else 31
  }

  predicate Valid(d: DateTime)
  {
    && 1 <= d.year <= 9999 && 1 <= d.month <= 12 && 1 <= d.day <= DaysInMonth(d.year, d.month)
    && d.hour < 24 && d.minute < 60 && d.second < 60 && d.micro < 1_000_000
  }

  // ---------- Instants ----------

  function DaysBeforeMonth(y: nat, m: nat): nat
  {
    if m <= 1 then 0 else DaysBeforeMonth(y, m - 1) + DaysInMonth(y, m - 1)
  }

  function DaysBeforeYear(y: nat): nat
  {
    if y <= 1 then 0 else DaysBeforeYear(y - 1) + DaysBeforeMonth(y - 1, 13)
  }

  /** Days since the start of the proleptic Gregorian calendar. */
  function Ordinal(d: DateTime): nat
  {
    DaysBeforeYear(d.year) + DaysBeforeMonth(d.year, d.month) + d.day
  }

  function SecondOfDay(d: DateTime): nat
  {
    (d.hour * 60 + d.minute) * 60 + d.second
  }

  /** Whole seconds since the start of the calendar. */
  function Second(d: DateTime): nat
  {
    Ordinal(d) * 86_400 + SecondOfDay(d)
  }

  /** Microseconds since the start of the calendar. */
  function Instant(d: DateTime): nat
  {
    Second(d) * 1_000_000 + d.micro
  }

  // ---------- The stored text ----------

  function Seconds(d: DateTime, tail: string): string
  {
    Pad(2, d.hour) + (":" + (Pad(2, d.minute) + (":" + (Pad(2, d.second) + tail))))
  }

  function Days(d: DateTime, sep: string, rest: string): string
  {
    Pad(4, d.year) + ("-" + (Pad(2, d.month) + ("-" + (Pad(2, d.day) + (sep + rest)))))
  }

  /** The fraction and the offset: `isoformat` leaves a zero fraction out. */
  function Tail(micro: nat): string
  {
    (if micro == 0 then "" else "." + Pad(6, micro)) + "+00:00"
  }

  /** `_task_timestamp`: `isoformat` of a UTC time. */
  function TaskText(d: DateTime): string
  {
    Days(d, "T", Seconds(d, Tail(d.micro)))
  }

  /** `_session_timestamp`: `%Y-%m-%d %H:%M:%S`. */
  function SessionText(d: DateTime): string
  {
    Days(d, " ", Seconds(d, ""))
  }

  // ---------- Text order, field by field ----------

  lemma FieldOrder(w: nat, n: nat, m: nat, sep: string, x: string, y: string)
    requires n < Pow10(w) && m < Pow10(w)
    ensures LexLess(Pad(w, n) + (sep + x), Pad(w, m) + (sep + y)) <==> n < m || (n == m && LexLess(x, y))
  {
    PadOrder(w, n, m);
    LexAppend(Pad(w, n), Pad(w, m), sep + x, sep + y);
    LexPrefix(sep, x, y);
  }

  lemma Powers()
    ensures Pow10(2) == 100 && Pow10(4) == 10_000 && Pow10(6) == 1_000_000
  {
    assert Pow10(1) == 10 && Pow10(3) == 1000 && Pow10(5) == 100_000;
  }

  predicate TimeBefore(a: DateTime, b: DateTime)
  {
    a.hour < b.hour || (a.hour == b.hour && (a.minute < b.minute || (a.minute == b.minute && a.second < b.second)))
  }

  predicate SameTime(a: DateTime, b: DateTime)
  {
    a.hour == b.hour && a.minute == b.minute && a.second == b.second
  }

  predicate DateBefore(a: DateTime, b: DateTime)
  {
    a.year < b.year || (a.year == b.year && (a.month < b.month || (a.month == b.month && a.day < b.day)))
  }

  predicate SameDate(a: DateTime, b: DateTime)
  {
    a.year == b.year && a.month == b.month && a.day == b.day
  }

  lemma SecondsOrder(a: DateTime, b: DateTime, x: string, y: string)
    requires Valid(a) && Valid(b)
    ensures LexLess(Seconds(a, x), Seconds(b, y)) <==> TimeBefore(a, b) || (SameTime(a, b) && LexLess(x, y))
  {
    Powers();
    assert "" + x == x && "" + y == y;
    FieldOrder(2, a.second, b.second, "", x, y);
    FieldOrder(2, a.minute, b.minute, ":", Pad(2, a.second) + x, Pad(2, b.second) + y);
    FieldOrder(2, a.hour, b.hour, ":", Pad(2, a.minute) + (":" + (Pad(2, a.second) + x)), Pad(2, b.minute) + (":" + (Pad(2, b.second) + y)));
  }

  lemma DaysOrder(a: DateTime, b: DateTime, sep: string, x: string, y: string)
    requires Valid(a) && Valid(b)
    ensures LexLess(Days(a, sep, x), Days(b, sep, y)) <==> DateBefore(a, b) || (SameDate(a, b) && LexLess(x, y))
  {
    Powers();
    var (da, db) := (Pad(2, a.day) + (sep + x), Pad(2, b.day) + (sep + y));
    FieldOrder(2, a.day, b.day, sep, x, y);
    FieldOrder(2, a.month, b.month, "-", da, db);
    FieldOrder(4, a.year, b.year, "-", Pad(2, a.month) + ("-" + da), Pad(2, b.month) + ("-" + db));
  }

  /** The offset's plus sign sorts before a fraction's dot, so a dropped zero fraction still comes first. */
  lemma TailOrder(m: nat, n: nat)
    requires m < 1_000_000 && n < 1_000_000
    ensures LexLess(Tail(m), Tail(n)) <==> m < n
  {
    Powers();
    LexIrreflexive("+00:00");
    PadOrder(6, m, n);
    LexAppend(Pad(6, m), Pad(6, n), "+00:00", "+00:00");
    LexPrefix(".", Pad(6, m) + "+00:00", Pad(6, n) + "+00:00");
    assert "." + Pad(6, m) + "+00:00" == "." + (Pad(6, m) + "+00:00");
    assert "." + Pad(6, n) + "+00:00" == "." + (Pad(6, n) + "+00:00");
    assert "" + "+00:00" == "+00:00";
    assert n != 0 ==> Tail(n)[0] == '.';
    assert m != 0 ==> Tail(m)[0] == '.';
  }

  // ---------- Calendar order is time order ----------

  lemma {:induction false} MonthsBefore(y: nat, m: nat, m': nat)
    requires m <= m'
    ensures DaysBeforeMonth(y, m) <= DaysBeforeMonth(y, m')
    ensures 1 <= m < m' ==> DaysBeforeMonth(y, m) + DaysInMonth(y, m) <= DaysBeforeMonth(y, m')
    decreases m'
  {
    if m < m' { MonthsBefore(y, m, m' - 1); }
  }

  lemma {:induction false} YearsBefore(y: nat, y': nat)
    requires 1 <= y < y'
    ensures DaysBeforeYear(y) + DaysBeforeMonth(y, 13) <= DaysBeforeYear(y')
    decreases y'
  {
    if y < y' - 1 { YearsBefore(y, y' - 1); }
  }

  lemma DateBeforeIsEarlier(a: DateTime, b: DateTime)
    requires Valid(a) && Valid(b) && DateBefore(a, b)
    ensures Ordinal(a) < Ordinal(b)
  {
    if a.year < b.year {
      YearsBefore(a.year, b.year);
      MonthsBefore(a.year, a.month, 13);
    } else if a.month < b.month {
      MonthsBefore(a.year, a.month, b.month);
    }
  }

  lemma DateOrder(a: DateTime, b: DateTime)
    requires Valid(a) && Valid(b)
    ensures Ordinal(a) < Ordinal(b) <==> DateBefore(a, b)
    ensures Ordinal(a) == Ordinal(b) <==> SameDate(a, b)
  {
    if DateBefore(a, b) { DateBeforeIsEarlier(a, b); }
    if DateBefore(b, a) { DateBeforeIsEarlier(b, a); }
  }

  lemma SecondOrder(a: DateTime, b: DateTime)
    requires Valid(a) && Valid(b)
    ensures Second(a) < Second(b) <==> DateBefore(a, b) || (SameDate(a, b) && TimeBefore(a, b))
    ensures Second(a) == Second(b) <==> SameDate(a, b) && SameTime(a, b)
  {
    DateOrder(a, b);
    assert SecondOfDay(a) < 86_400 && SecondOfDay(b) < 86_400;
  }

  /** The text the database compares is in time order for every pair of instants, fraction or no fraction. */
  lemma TaskTextOrder(a: DateTime, b: DateTime)
    requires Valid(a) && Valid(b)
    ensures LexLess(TaskText(a), TaskText(b)) <==> Instant(a) < Instant(b)
    ensures LexLessEq(TaskText(a), TaskText(b)) <==> Instant(a) <= Instant(b)
  {
    TaskTextLess(a, b);
    TaskTextLess(b, a);
    LexIrreflexive(TaskText(a));
    LexTotal(TaskText(a), TaskText(b));
  }

  lemma TaskTextLess(a: DateTime, b: DateTime)
    requires Valid(a) && Valid(b)
    ensures LexLess(TaskText(a), TaskText(b)) <==> Instant(a) < Instant(b)
  {
    DaysOrder(a, b, "T", Seconds(a, Tail(a.micro)), Seconds(b, Tail(b.micro)));
    SecondsOrder(a, b, Tail(a.micro), Tail(b.micro));
    TailOrder(a.micro, b.micro);
    SecondOrder(a, b);
  }

  /** Session text orders by whole seconds. */
  lemma SessionTextOrder(a: DateTime, b: DateTime)
    requires Valid(a) && Valid(b)
    ensures LexLess(SessionText(a), SessionText(b)) <==> Second(a) < Second(b)
  {
    DaysOrder(a, b, " ", Seconds(a, ""), Seconds(b, ""));
    SecondsOrder(a, b, "", "");
    SecondOrder(a, b);
  }
}

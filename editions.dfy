/** The in-memory logic of data_manager.py: the datetime-to-string
    conversion applied before an edition is saved, the list of available
    edition dates, and the summary of one stored edition. Files are given
    as data: a directory is the list its glob yields plus the parsed
    contents of each file. */
module Editions {
  import opened Wrappers
  import opened Text
  import opened Sorting

  // ---------------------------------------------------------------------
  // Decimal digits
  // ---------------------------------------------------------------------

  predicate IsDigit(c: char) { '0' <= c <= '9' }

  function DigitChar(n: nat): (c: char)
    requires n < 10
    ensures IsDigit(c)
  {
    ('0' as int + n) as char
  }

  function DigitValue(c: char): nat
    requires IsDigit(c)
  {
    c as int - '0' as int
  }

  /** str(n) for a non-negative integer. */
  function Digits(n: nat): (s: string)
    ensures s != [] && forall i :: 0 <= i < |s| ==> IsDigit(s[i])
    decreases n
  {
    if n < 10 then [DigitChar(n)] else Digits(n / 10) + [DigitChar(n % 10)]
  }

  /** '%0*d' % (width, n): n in decimal, zero-padded on the left. */
  function Pad(n: nat, width: nat): (r: string)
    ensures |r| >= width && forall i :: 0 <= i < |r| ==> IsDigit(r[i])
  {
    var d := Digits(n);
    if |d| >= width then d else seq(width - |d|, _ => '0') + d
  }

  /** The value of a string of digits. */
  function Number(s: string): nat
    requires forall i :: 0 <= i < |s| ==> IsDigit(s[i])
    decreases |s|
  {
    if s == [] then 0 else Number(Init(s)) * 10 + DigitValue(s[|s| - 1])
  }

  lemma TwoDigits(n: nat)
    requires n < 100
    ensures Pad(n, 2) == [DigitChar(n / 10), DigitChar(n % 10)]
  {
    if n >= 10 {
      assert Digits(n / 10) == [DigitChar(n / 10)];
    } else {
      assert seq(1, _ => '0') == ['0'];
    }
  }

  lemma FourDigits(n: nat)
    requires 1000 <= n < 10000
    ensures Digits(n) == [DigitChar(n / 1000), DigitChar(n / 100 % 10), DigitChar(n / 10 % 10), DigitChar(n % 10)]
  {
    assert n / 10 / 10 == n / 100 && n / 100 / 10 == n / 1000;
    assert Digits(n / 1000) == [DigitChar(n / 1000)];
    assert Digits(n / 100) == [DigitChar(n / 1000), DigitChar(n / 100 % 10)];
    assert Digits(n / 10) == [DigitChar(n / 1000), DigitChar(n / 100 % 10), DigitChar(n / 10 % 10)];
  }

  lemma NumberOfFour(s: string)
    requires |s| == 4 && forall i :: 0 <= i < 4 ==> IsDigit(s[i])
    ensures Number(s) == DigitValue(s[0]) * 1000 + DigitValue(s[1]) * 100 + DigitValue(s[2]) * 10 + DigitValue(s[3])
  {
    assert Number(s[..1]) == DigitValue(s[0]) by {
      assert Init(s[..1]) == [];
    }
    assert Number(s[..2]) == Number(s[..1]) * 10 + DigitValue(s[1]) by {
      assert Init(s[..2]) == s[..1];
    }
    assert Number(s[..3]) == Number(s[..2]) * 10 + DigitValue(s[2]) by {
      assert Init(s[..3]) == s[..2];
    }
    assert Init(s) == s[..3];
  }

  // ---------------------------------------------------------------------
  // Dates: datetime.strptime(s, '%Y-%m-%d') and strftime('%Y-%m-%d')
  // ---------------------------------------------------------------------

  datatype Date = Date(year: nat, month: nat, day: nat)

  predicate LeapYear(y: nat) {
    y % 4 == 0 && (y % 100 != 0 || y % 400 == 0)
  }

  function DaysIn(year: nat, month: nat): nat {
    if month == 2 then (if LeapYear(year) then 29 else 28)
    else if month == 4 || month == 6 || month == 9 || month == 11 then 30
    else 31
  }

  /** A date the datetime module accepts. */
  predicate ValidDate(d: Date) {
    1 <= d.year <= 9999 && 1 <= d.month <= 12 && 1 <= d.day <= DaysIn(d.year, d.month)
  }

  /** The %Y field: four digits. */
  function YearField(y: string): Option<nat> {
    if |y| == 4 && (forall i :: 0 <= i < 4 ==> IsDigit(y[i])) then Some(Number(y)) else None
  }

  /** The %m field: 1[0-2], 0[1-9] or [1-9]. */
  function MonthField(m: string): Option<nat> {
    if |m| == 1 && '1' <= m[0] <= '9' then Some(DigitValue(m[0]))
    else if |m| == 2 && m[0] == '0' && '1' <= m[1] <= '9' then Some(DigitValue(m[1]))
    else if |m| == 2 && m[0] == '1' && '0' <= m[1] <= '2' then Some(10 + DigitValue(m[1]))
    else None
  }

  /** The %d field: 3[01], [12]\d, 0[1-9], [1-9] or a space and [1-9]. */
  function DayField(d: string): Option<nat> {
    if |d| == 1 && '1' <= d[0] <= '9' then Some(DigitValue(d[0]))
    else if |d| == 2 && d[0] == '3' && '0' <= d[1] <= '1' then Some(30 + DigitValue(d[1]))
    else if |d| == 2 && '1' <= d[0] <= '2' && IsDigit(d[1]) then Some(DigitValue(d[0]) * 10 + DigitValue(d[1]))
    else if |d| == 2 && (d[0] == '0' || d[0] == ' ') && '1' <= d[1] <= '9' then Some(DigitValue(d[1]))
    else None
  }

  /** The year, month and day text of s: four characters, '-', a month of
      one or two characters, '-', and the rest. The month field cannot
      contain '-', so the second '-' is at position 6 or 7. */
  datatype Fields = Fields(year: string, month: string, day: string)

  function FieldsOf(s: string): Option<Fields> {
    if |s| < 8 || s[4] != '-' then None
    else if s[6] == '-' then Some(Fields(s[..4], s[5..6], s[7..]))
    else if s[7] == '-' then Some(Fields(s[..4], s[5..7], s[8..]))
    else None
  }

  /** datetime.strptime(s, '%Y-%m-%d').date(): the three fields, each in
      the form its directive accepts, with nothing left over, naming a
      real date; ValueError otherwise. */
  function ParseDate(s: string): Result<Date> {
    match FieldsOf(s)
    case None => Err(ValueError)
    case Some(f) =>
      match (YearField(f.year), MonthField(f.month), DayField(f.day))
      case (Some(y), Some(m), Some(d)) =>
        if ValidDate(Date(y, m, d)) then Ok(Date(y, m, d)) else Err(ValueError)
      case _ => Err(ValueError)
  }

  /** date.strftime('%Y-%m-%d') with the C library of Linux, whose %Y does
      not pad years below 1000. */
  function FormatDate(d: Date): string {
    Digits(d.year) + "-" + Pad(d.month, 2) + "-" + Pad(d.day, 2)
  }

  /** int(str(n)) == n. */
  lemma {:induction false} NumberOfDigits(n: nat)
    ensures Number(Digits(n)) == n
    decreases n
  {
    if n >= 10 {
      NumberOfDigits(n / 10);
      assert Init(Digits(n)) == Digits(n / 10);
    } else {
      assert Init(Digits(n)) == [];
    }
  }

  /** str(int(s)) == s for digits without a leading zero. */
  lemma {:induction false} DigitsOfNumber(s: string)
    requires s != [] && s[0] != '0' && forall i :: 0 <= i < |s| ==> IsDigit(s[i])
    ensures Number(s) >= 1 && Digits(Number(s)) == s
    decreases |s|
  {
    if |s| == 1 {
      assert Init(s) == [];
    } else {
      var init := Init(s);
      DigitsOfNumber(init);
      var n := Number(s);
      assert n == Number(init) * 10 + DigitValue(s[|s| - 1]);
      assert n / 10 == Number(init) && n % 10 == DigitValue(s[|s| - 1]);
      assert s == init + [s[|s| - 1]];
    }
  }

  lemma YearFieldOfDigits(n: nat)
    requires 1000 <= n < 10000
    ensures YearField(Digits(n)) == Some(n)
  {
    FourDigits(n);
    NumberOfDigits(n);
  }

  lemma YearFieldDigits(y: string)
    requires YearField(y).Some? && YearField(y).value >= 1000
    ensures Digits(YearField(y).value) == y
  {
    NumberOfFour(y);
    DigitsOfNumber(y);
  }

  lemma MonthFieldOfPad(m: nat)
    requires 1 <= m <= 12
    ensures MonthField(Pad(m, 2)) == Some(m)
  {
    TwoDigits(m);
  }

  lemma MonthFieldPad(t: string)
    requires |t| == 2 && MonthField(t).Some?
    ensures Pad(MonthField(t).value, 2) == t
  {
    TwoDigits(MonthField(t).value);
  }

  lemma DayFieldOfPad(d: nat)
    requires 1 <= d <= 31
    ensures DayField(Pad(d, 2)) == Some(d)
  {
    TwoDigits(d);
  }

  lemma DayFieldPad(t: string)
    requires |t| == 2 && t[0] != ' ' && DayField(t).Some?
    ensures Pad(DayField(t).value, 2) == t
  {
    TwoDigits(DayField(t).value);
  }

  /** Formatting a date from year 1000 on and parsing it back gives the
      same date. */
  lemma FormatThenParse(d: Date)
    requires ValidDate(d) && d.year >= 1000
    ensures |FormatDate(d)| == 10
    ensures ParseDate(FormatDate(d)) == Ok(d)
  {
    FourDigits(d.year);
    TwoDigits(d.month);
    TwoDigits(d.day);
    var s := FormatDate(d);
    assert FieldsOf(s) == Some(Fields(Digits(d.year), Pad(d.month, 2), Pad(d.day, 2))) by {
      assert s[..4] == Digits(d.year) && s[5..7] == Pad(d.month, 2) && s[8..] == Pad(d.day, 2);
    }
    YearFieldOfDigits(d.year);
    MonthFieldOfPad(d.month);
    DayFieldOfPad(d.day);
  }

  /** A date string in the canonical ten-character form names the file it
      is parsed back to, unless its year is below 1000. */
  lemma ParseThenFormat(s: string)
    requires |s| == 10 && ParseDate(s).Ok?
    requires s[8] != ' '
    ensures ValidDate(ParseDate(s).value)
    ensures ParseDate(s).value.year >= 1000 ==> FormatDate(ParseDate(s).value) == s
  {
    var d := ParseDate(s).value;
    var f := FieldsOf(s).value;
    assert f == Fields(s[..4], s[5..7], s[8..]);
    if d.year >= 1000 {
      YearFieldDigits(f.year);
      MonthFieldPad(f.month);
      DayFieldPad(f.day);
      assert s == s[..4] + "-" + s[5..7] + "-" + s[8..];
    }
  }

  /** strptime accepts unpadded fields: the stem "2024-1-5" is a date. */
  lemma UnpaddedDate()
    ensures ParseDate("2024-1-5") == Ok(Date(2024, 1, 5))
  {
    var s := "2024-1-5";
    assert s[4] == '-' && s[6] == '-';
    var f := Fields(s[..4], s[5..6], s[7..]);
    assert FieldsOf(s) == Some(f);
    assert f.year == "2024" && f.month == "1" && f.day == "5";
    NumberOfFour("2024");
    assert YearField(f.year) == Some(2024);
  }

  /** The date is written back padded: the date of the stem "2024-1-5"
      is saved as "2024-01-05". */
  lemma PaddedFormat()
    ensures FormatDate(Date(2024, 1, 5)) == "2024-01-05"
  {
    FourDigits(2024);
    TwoDigits(1);
    TwoDigits(5);
  }

  /** A stem that is not a date, or names no real day, is refused. */
  lemma NotADate()
    ensures ParseDate("notes").Err?
    ensures ParseDate("2023-02-29").Err?
    ensures ParseDate("2024-13-01").Err?
  {
    var s := "2023-02-29";
    assert s[4] == '-' && s[6] != '-' && s[7] == '-';
    assert s[..4] == "2023" && s[5..7] == "02" && s[8..] == "29";
    NumberOfFour("2023");
    var t := "2024-13-01";
    assert t[4] == '-' && t[6] != '-' && t[7] == '-';
    assert t[5..7] == "13";
  }

  /** Years below 1000 are written back without padding. */
  lemma ShortYear()
    ensures FormatDate(Date(999, 1, 1)) == "999-01-01"
  {
    assert Digits(999) == "999" by {
      assert Digits(9) == "9" && Digits(99) == "99";
    }
    TwoDigits(1);
  }

  /** Python's date comparison. */
  predicate DateLe(a: Date, b: Date) {
    a.year < b.year || (a.year == b.year && (a.month < b.month || (a.month == b.month && a.day <= b.day)))
  }

  // ---------------------------------------------------------------------
  // _convert_datetime_fields
  // ---------------------------------------------------------------------

  datatype DateTime = DateTime(year: nat, month: nat, day: nat, hour: nat, minute: nat, second: nat, microsecond: nat)

  /** datetime.isoformat() for a naive datetime. */
  function IsoFormat(t: DateTime): string {
    Pad(t.year, 4) + "-" + Pad(t.month, 2) + "-" + Pad(t.day, 2) + "T"
      + Pad(t.hour, 2) + ":" + Pad(t.minute, 2) + ":" + Pad(t.second, 2)
      + (if t.microsecond != 0 then "." + Pad(t.microsecond, 6) else "")
  }

  /** The Python values an edition is built from. A date that is not a
      datetime is a separate leaf, since isinstance(d, datetime) is false
      for it. */
  datatype Value =
    | Null
    | Bool(b: bool)
    | Int(i: int)
    | Float(f: real)
    | Str(s: string)
    | DateLeaf(date: Date)
    | DateTimeLeaf(t: DateTime)
    | List(items: seq<Value>)
    | Tuple(items: seq<Value>)
    | Dict(entries: seq<Entry>)

  /** One key of a dict, in insertion order. */
  datatype Entry = Entry(key: string, value: Value)

  /** _convert_datetime_fields (data_manager.py:39-51). */
  function Convert(v: Value): Value
    decreases v
  {
    match v
    case Dict(es) => Dict(seq(|es|, i requires 0 <= i < |es| => Entry(es[i].key, Convert(es[i].value))))
    case List(items) => List(seq(|items|, i requires 0 <= i < |items| => Convert(items[i])))
    case DateTimeLeaf(t) => Str(IsoFormat(t))
    case _ => v
  }

  /** No datetime is left where the conversion looks: in dicts and lists.
      Tuples are not looked into. */
  ghost predicate JsonReady(v: Value)
    decreases v
  {
    match v
    case Dict(es) => forall i :: 0 <= i < |es| ==> JsonReady(es[i].value)
    case List(items) => forall i :: 0 <= i < |items| ==> JsonReady(items[i])
    case DateTimeLeaf(_) => false
    case _ => true
  }

  /** The conversion keeps the keys of every dict, in order, and the
      length of every list; it turns a datetime into its ISO string and
      leaves every other value, tuples included, unchanged. */
  lemma ConvertShape(v: Value)
    ensures v.Dict? ==> (Convert(v).Dict? && |Convert(v).entries| == |v.entries|
      && forall i :: 0 <= i < |v.entries| ==>
        (Convert(v).entries[i].key == v.entries[i].key
         && Convert(v).entries[i].value == Convert(v.entries[i].value)))
    ensures v.List? ==> (Convert(v).List? && |Convert(v).items| == |v.items|
      && forall i :: 0 <= i < |v.items| ==> Convert(v).items[i] == Convert(v.items[i]))
    ensures v.DateTimeLeaf? ==> Convert(v) == Str(IsoFormat(v.t))
    ensures !v.Dict? && !v.List? && !v.DateTimeLeaf? ==> Convert(v) == v
  {
  }

  /** After the conversion no datetime is left in a dict or a list. */
  lemma {:induction false} ConvertJsonReady(v: Value)
    ensures JsonReady(Convert(v))
    decreases v
  {
    match v
    case Dict(es) =>
      forall i | 0 <= i < |es| ensures JsonReady(Convert(v).entries[i].value) {
        ConvertJsonReady(es[i].value);
      }
    case List(items) =>
      forall i | 0 <= i < |items| ensures JsonReady(Convert(v).items[i]) {
        ConvertJsonReady(items[i]);
      }
    case _ =>
  }

  /** A value without datetimes comes back unchanged. */
  lemma {:induction false} ConvertIdentity(v: Value)
    requires JsonReady(v)
    ensures Convert(v) == v
    decreases v
  {
    match v
    case Dict(es) =>
      var es' := Convert(v).entries;
      forall i | 0 <= i < |es| ensures es'[i] == es[i] {
        ConvertIdentity(es[i].value);
      }
      assert es' == es;
    case List(items) =>
      var items' := Convert(v).items;
      forall i | 0 <= i < |items| ensures items'[i] == items[i] {
        ConvertIdentity(items[i]);
      }
      assert items' == items;
    case _ =>
  }

  /** Converting twice is converting once. */
  lemma ConvertIdempotent(v: Value)
    ensures Convert(Convert(v)) == Convert(v)
  {
    ConvertJsonReady(v);
    ConvertIdentity(Convert(v));
  }

  /** The ISO string of a datetime from year 1000 on starts with the date
      as the edition file names write it. */
  lemma IsoFormatDate(t: DateTime)
    requires ValidDate(Date(t.year, t.month, t.day)) && t.year >= 1000
    requires t.hour < 24 && t.minute < 60 && t.second < 60 && t.microsecond < 1000000
    ensures IsoFormat(t)[..10] == FormatDate(Date(t.year, t.month, t.day))
    ensures IsoFormat(t)[10] == 'T'
    ensures ParseDate(IsoFormat(t)[..10]) == Ok(Date(t.year, t.month, t.day))
  {
    var d := Date(t.year, t.month, t.day);
    FourDigits(t.year);
    TwoDigits(t.month);
    TwoDigits(t.day);
    var head := Pad(t.year, 4) + "-" + Pad(t.month, 2) + "-" + Pad(t.day, 2);
    assert head == FormatDate(d);
    assert |head| == 10;
    var iso := IsoFormat(t);
    assert iso == head + (iso[10..]);
    assert iso[..10] == head;
    FormatThenParse(d);
  }
}

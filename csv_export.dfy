/** The CSV export: a header line, then one line per record, newest date first. Each line
    is its cells joined by ',' and ended by '\n'; a missing value is the empty cell. Cells
    are written as str() writes them and are not quoted. */
module Export {
  import opened Dates
  import opened Records
  import opened Queries

  // ---------------------------------------------------------------- numbers as text

  function DigitChar(d: int): char
    requires 0 <= d < 10
  {
    ('0' as int + d) as char
  }

  predicate IsDigit(c: char) {
    '0' <= c <= '9'
  }

  function DigitValue(c: char): int {
    c as int - '0' as int
  }

  /** The decimal digits of n, without leading zeros ("0" for 0). */
  function Digits(n: nat): string {
    if n < 10 then [DigitChar(n)] else Digits(n / 10) + [DigitChar(n % 10)]
  }

  /** The number a string of decimal digits denotes. */
  function DigitsValue(s: string): int {
    if s == [] then 0 else DigitsValue(s[..|s| - 1]) * 10 + DigitValue(s[|s| - 1])
  }

  lemma {:induction false} DigitsRoundTrip(n: nat)
    ensures DigitsValue(Digits(n)) == n
    ensures |Digits(n)| >= 1 && forall i :: 0 <= i < |Digits(n)| ==> IsDigit(Digits(n)[i])
  {
    if n >= 10 {
      var s := Digits(n);
      assert s[..|s| - 1] == Digits(n / 10);
      DigitsRoundTrip(n / 10);
    }
  }

  /** Left-pads with '0' to at least width characters, as the printf flag %0<width>d does. */
  function ZeroPad(s: string, width: nat): (r: string)
    ensures |r| == if |s| < width then width else |s|
  {
    if |s| < width then seq(width - |s|, _ => '0') + s else s
  }

  lemma {:induction false} LeadingZeros(k: nat, s: string)
    ensures DigitsValue(seq(k, _ => '0') + s) == DigitsValue(s)
    decreases |s|
  {
    var z := seq(k, _ => '0');
    if s == [] {
      assert z + s == z;
      ZerosValue(k);
    } else {
      assert (z + s)[..|z + s| - 1] == z + s[..|s| - 1];
      LeadingZeros(k, s[..|s| - 1]);
    }
  }

  lemma {:induction false} ZerosValue(k: nat)
    ensures DigitsValue(seq(k, _ => '0')) == 0
  {
    if k > 0 {
      assert seq(k, _ => '0')[..k - 1] == seq(k - 1, _ => '0');
      ZerosValue(k - 1);
    }
  }

  lemma PaddedRoundTrip(n: nat, width: nat)
    ensures DigitsValue(ZeroPad(Digits(n), width)) == n
    ensures forall i :: 0 <= i < |ZeroPad(Digits(n), width)| ==> IsDigit(ZeroPad(Digits(n), width)[i])
  {
    DigitsRoundTrip(n);
    var d := Digits(n);
    if |d| < width {
      LeadingZeros(width - |d|, d);
    }
  }

  // ---------------------------------------------------------------- splitting and joining

  /** sep.join(cells) */
  function Join(cells: seq<string>, sep: char): string {
    if cells == [] then ""
    else if |cells| == 1 then cells[0]
    else cells[0] + [sep] + Join(cells[1..], sep)
  }

  /** s.split(sep): the pieces between the separators, at least one. */
  function SplitOn(s: string, sep: char): (r: seq<string>)
    ensures |r| >= 1
  {
    if s == [] then [""]
    else
      var rest := SplitOn(s[1..], sep);
      if s[0] == sep then [""] + rest else [[s[0]] + rest[0]] + rest[1..]
  }

  lemma {:induction false} SplitPiece(c: string, sep: char)
    requires sep !in c
    ensures SplitOn(c, sep) == [c]
  {
    if c != [] {
      assert c[0] in c && sep !in c[1..];
      SplitPiece(c[1..], sep);
      assert [c[0]] + c[1..] == c;
    }
  }

  lemma {:induction false} SplitFirst(c: string, sep: char, rest: string)
    requires sep !in c
    ensures SplitOn(c + [sep] + rest, sep) == [c] + SplitOn(rest, sep)
  {
    if c == [] {
      assert c + [sep] + rest == [sep] + rest;
      assert ([sep] + rest)[1..] == rest;
    } else {
      assert (c + [sep] + rest)[1..] == c[1..] + [sep] + rest;
      assert sep !in c[1..];
      SplitFirst(c[1..], sep, rest);
      assert [c[0]] + c[1..] == c;
    }
  }

  /** Splitting a join gives back the cells when no cell holds the separator. */
  lemma {:induction false} SplitJoin(cells: seq<string>, sep: char)
    requires |cells| >= 1
    requires forall i :: 0 <= i < |cells| ==> sep !in cells[i]
    ensures SplitOn(Join(cells, sep), sep) == cells
  {
    if |cells| == 1 {
      SplitPiece(cells[0], sep);
    } else {
      SplitFirst(cells[0], sep, Join(cells[1..], sep));
      SplitJoin(cells[1..], sep);
    }
  }

  // ---------------------------------------------------------------- cells

  /** str(date): 'YYYY-MM-DD' */
  function DateText(d: Date): string {
    ZeroPad(Digits(Natural(d.year)), 4) + "-" + ZeroPad(Digits(Natural(d.month)), 2) + "-" + ZeroPad(Digits(Natural(d.day)), 2)
  }

  function Natural(x: int): nat {
    if x < 0 then 0 else x
  }

  /** str(float(amount)) for an amount of cents: the shortest form Python prints, with at
      least one digit after the point ("12.0", "12.5", "12.34", "-0.5"). */
  function AmountText(cents: int): string {
    var a := if cents < 0 then -cents else cents;
    (if cents < 0 then "-" else "") + Digits(a / 100) + "." + FractionText(a % 100)
  }

  /** The digits after the point of a whole number of cents: "0", one digit, or two. */
  function FractionText(frac: int): string
    requires 0 <= frac < 100
  {
    if frac == 0 then "0"
    else if frac % 10 == 0 then [DigitChar(frac / 10)]
    else [DigitChar(frac / 10), DigitChar(frac % 10)]
  }

  /** One value of a data row: None is rendered as the empty cell. */
  datatype Item = Null | Text(text: string)

  function Render(item: Item): string {
    match item
    case Null => ""
    case Text(s) => s
  }

  const HEADER: seq<string> := ["Date", "Description", "Category", "Amount", "Type", "Payment Mode"]

  /** The six values the export writes for a record, in header order. */
  function RecordItems(t: Transaction): seq<Item> {
    [Text(DateText(t.date)),
     if t.description.None? then Null else Text(t.description.value),
     Text(t.category), Text(AmountText(t.amount)), Text(t.kind), Text(t.paymentMode)]
  }

  const HEADER_ITEMS: seq<Item> := [Text("Date"), Text("Description"), Text("Category"), Text("Amount"), Text("Type"), Text("Payment Mode")]

  /** ','.join(rendered items) + '\n' */
  function Line(items: seq<Item>): string {
    Join(seq(|items|, i requires 0 <= i < |items| => Render(items[i])), ',') + "\n"
  }

  // ---------------------------------------------------------------- the export

  /** generate(): the data list (header, then each record in date-descending order), then
      one line per entry of it. */
  method ExportCsv(rows: seq<Transaction>) returns (lines: seq<string>)
    ensures |lines| == |rows| + 1
    ensures lines[0] == Line(HEADER_ITEMS)
    ensures forall i :: 0 <= i < |rows| ==> lines[i + 1] == Line(RecordItems(SortBy(rows, DateDescRank)[i]))
  {
    var expenses := SortBy(rows, DateDescRank);
    var data := ExportData(expenses);
    MapAt(expenses, RecordItems);
    lines := ExportLines(data);
  }

  /** f applied to each element, in order. */
  function Map<T, U>(s: seq<T>, f: T -> U): (r: seq<U>)
    ensures |r| == |s|
  {
    if s == [] then [] else Map(s[..|s| - 1], f) + [f(s[|s| - 1])]
  }

  lemma {:induction false} MapAt<T, U>(s: seq<T>, f: T -> U)
    ensures forall i :: 0 <= i < |s| ==> Map(s, f)[i] == f(s[i])
  {
    if s != [] {
      MapAt(s[..|s| - 1], f);
    }
  }

  /** The header's items followed by each record's items, in the given order. */
  method ExportData(expenses: seq<Transaction>) returns (data: seq<seq<Item>>)
    ensures data == [HEADER_ITEMS] + Map(expenses, RecordItems)
  {
    data := [HEADER_ITEMS];
    var k := 0;
    while k < |expenses|
      invariant 0 <= k <= |expenses|
      invariant data == [HEADER_ITEMS] + Map(expenses[..k], RecordItems)
    {
      assert expenses[..k + 1][..k] == expenses[..k];
      data := data + [RecordItems(expenses[k])];
      k := k + 1;
    }
    assert expenses[..k] == expenses;
  }

  /** One text line per entry of the data list. */
  method ExportLines(data: seq<seq<Item>>) returns (lines: seq<string>)
    ensures |lines| == |data|
    ensures forall i :: 0 <= i < |data| ==> lines[i] == Line(data[i])
  {
    lines := [];
    var j := 0;
    while j < |data|
      invariant 0 <= j <= |data|
      invariant |lines| == j
      invariant forall i :: 0 <= i < j ==> lines[i] == Line(data[i])
    {
      lines := lines + [Line(data[j])];
      j := j + 1;
    }
  }

  // ---------------------------------------------------------------- reading a line back

  /** What a data line records: the description reads back as "" when it was missing. */
  datatype CsvRecord = CsvRecord(date: Date, description: string, category: string, amount: int,
                                 kind: string, paymentMode: string)

  function Exported(t: Transaction): CsvRecord {
    CsvRecord(t.date, if t.description.None? then "" else t.description.value, t.category, t.amount,
              t.kind, t.paymentMode)
  }

  function ParseDate(s: string): Option<Date> {
    var parts := SplitOn(s, '-');
    if |parts| == 3 then Some(Date(DigitsValue(parts[0]), DigitsValue(parts[1]), DigitsValue(parts[2])))
    else None
  }

  function ParseAmount(s: string): Option<int> {
    if |s| > 0 && s[0] == '-' then
      var value := ParseUnsigned(s[1..]);
      if value.None? then None else Some(-value.value)
    else ParseUnsigned(s)
  }

  /** Cents from "<whole>.<one or two digits>". */
  function ParseUnsigned(s: string): Option<int> {
    var parts := SplitOn(s, '.');
    if |parts| != 2 || !(1 <= |parts[1]| <= 2) then None
    else Some(DigitsValue(parts[0]) * 100 + FractionValue(parts[1]))
  }

  /** Cents from the digits after the point: one digit counts tens of cents. */
  function FractionValue(f: string): int {
    if |f| == 1 then DigitsValue(f) * 10 else DigitsValue(f)
  }

  /** Reads a data line: six comma-separated cells and the final newline. */
  function ParseLine(line: string): Option<CsvRecord> {
    if |line| == 0 || line[|line| - 1] != '\n' then None
    else
      var cells := SplitOn(line[..|line| - 1], ',');
      if |cells| != 6 then None
      else
        var date := ParseDate(cells[0]);
        var amount := ParseAmount(cells[3]);
        if date.None? || amount.None? then None
        else Some(CsvRecord(date.value, cells[1], cells[2], amount.value, cells[4], cells[5]))
  }

  /** Three pieces without '-', joined by '-', split back into the three. */
  lemma DashSplit(y: string, m: string, dd: string)
    requires '-' !in y && '-' !in m && '-' !in dd
    ensures SplitOn(y + "-" + m + "-" + dd, '-') == [y, m, dd]
  {
    SplitPiece(dd, '-');
    SplitFirst(m, '-', dd);
    assert y + "-" + m + "-" + dd == y + ['-'] + (m + ['-'] + dd);
    SplitFirst(y, '-', m + ['-'] + dd);
  }

  /** A zero-padded number reads back as the number and holds neither '-' nor ','. */
  lemma PaddedPiece(n: nat, width: nat)
    ensures DigitsValue(ZeroPad(Digits(n), width)) == n
    ensures '-' !in ZeroPad(Digits(n), width) && ',' !in ZeroPad(Digits(n), width)
  {
    PaddedRoundTrip(n, width);
  }

  lemma DateTextRoundTrip(d: Date)
    requires Valid(d)
    ensures ParseDate(DateText(d)) == Some(d)
    ensures ',' !in DateText(d)
  {
    var y, m, dd := ZeroPad(Digits(d.year), 4), ZeroPad(Digits(d.month), 2), ZeroPad(Digits(d.day), 2);
    assert DateText(d) == y + "-" + m + "-" + dd;
    PaddedPiece(d.year, 4);
    PaddedPiece(d.month, 2);
    PaddedPiece(d.day, 2);
    DashSplit(y, m, dd);
  }

  lemma FractionRoundTrip(frac: int)
    requires 0 <= frac < 100
    ensures 1 <= |FractionText(frac)| <= 2
    ensures FractionValue(FractionText(frac)) == frac
    ensures forall i :: 0 <= i < |FractionText(frac)| ==> IsDigit(FractionText(frac)[i])
  {
    var f := FractionText(frac);
    if frac == 0 {
      assert f[..0] == [];
    } else if frac % 10 == 0 {
      assert f[..0] == [];
      assert DigitsValue(f) == frac / 10;
    } else {
      var tens := [DigitChar(frac / 10)];
      assert f[..1] == tens && tens[..0] == [];
      assert DigitsValue(tens) == frac / 10;
      assert DigitsValue(f) == frac / 10 * 10 + frac % 10;
    }
  }

  /** Whole digits, a point and a fraction split at the point. */
  lemma PointSplit(w: string, f: string)
    requires forall i :: 0 <= i < |w| ==> IsDigit(w[i])
    requires forall i :: 0 <= i < |f| ==> IsDigit(f[i])
    ensures SplitOn(w + "." + f, '.') == [w, f]
  {
    assert '.' !in w && '.' !in f;
    SplitPiece(f, '.');
    SplitFirst(w, '.', f);
  }

  /** The text of a non-negative amount reads back as that amount. */
  lemma UnsignedRoundTrip(a: nat)
    ensures var body := Digits(a / 100) + "." + FractionText(a % 100);
      && ParseUnsigned(body) == Some(a)
      && IsDigit(body[0]) && ',' !in body
  {
    var w, f := Digits(a / 100), FractionText(a % 100);
    FractionRoundTrip(a % 100);
    DigitsRoundTrip(a / 100);
    PointSplit(w, f);
    var parts := SplitOn(w + "." + f, '.');
    assert parts[0] == w && parts[1] == f;
    assert DigitsValue(w) * 100 + FractionValue(f) == a;
    assert (w + "." + f)[0] == w[0];
    assert ',' !in w && ',' !in f;
  }

  /** A leading '-' negates what the rest reads as. */
  lemma ParseSigned(body: string, v: int)
    requires ParseUnsigned(body) == Some(v) && |body| > 0 && body[0] != '-'
    ensures ParseAmount(body) == Some(v) && ParseAmount("-" + body) == Some(-v)
  {
    assert ("-" + body)[1..] == body;
  }

  lemma AmountTextRoundTrip(cents: int)
    ensures ParseAmount(AmountText(cents)) == Some(cents)
    ensures ',' !in AmountText(cents)
  {
    var a := if cents < 0 then -cents else cents;
    var body := Digits(a / 100) + "." + FractionText(a % 100);
    assert AmountText(cents) == if cents < 0 then "-" + body else body;
    UnsignedRoundTrip(a);
    ParseSigned(body, a);
  }

  /** A record's line reads back as the record, when its text cells hold no ',' or newline
      character and its date is a real date. */
  lemma RecordLineRoundTrip(t: Transaction)
    requires Valid(t.date)
    requires t.description.Some? ==> ',' !in t.description.value
    requires ',' !in t.category && ',' !in t.kind && ',' !in t.paymentMode
    ensures ParseLine(Line(RecordItems(t))) == Some(Exported(t))
  {
    var items := RecordItems(t);
    var cells := seq(|items|, i requires 0 <= i < |items| => Render(items[i]));
    DateTextRoundTrip(t.date);
    AmountTextRoundTrip(t.amount);
    var line := Line(items);
    assert line[..|line| - 1] == Join(cells, ',');
    SplitJoin(cells, ',');
  }

  /** The header line splits into the six column names. */
  lemma HeaderLine()
    ensures SplitOn(Line(HEADER_ITEMS)[..|Line(HEADER_ITEMS)| - 1], ',') == HEADER
  {
    var cells := seq(|HEADER|, i requires 0 <= i < |HEADER| => Render(HEADER_ITEMS[i]));
    assert cells == HEADER;
    SplitJoin(HEADER, ',');
  }
}

/** What the text of a cron field lists, told by how it is written rather than
    by how it is read. */
module CronForms {
  import opened Events
  import opened Schedule
  import opened CronText
  import Calendar

  // ---- Numbers as they are written ----

  function Digit(d: nat): char
    requires d < 10
  {
    '0' + d as char
  }

  function Numeral(n: nat): (s: string)
    ensures s != ""
  {
    if n < 10 then [Digit(n)] else Numeral(n / 10) + [Digit(n % 10)]
  }

  function Zeros(k: nat): (s: string)
    ensures |s| == k
  {
    if k == 0 then "" else Zeros(k - 1) + "0"
  }

  lemma DigitsSnoc(s: string, c: char)
    ensures Digits(s + [c]) ==
            if Digits(s).Some? && '0' <= c <= '9' then Some(10 * Digits(s).value + (c as int - '0' as int)) else None
  {
    assert (s + [c])[..|s|] == s;
  }

  lemma {:induction false} ZerosRead(k: nat)
    ensures Digits(Zeros(k)) == Some(0)
  {
    if k > 0 {
      ZerosRead(k - 1);
      DigitsSnoc(Zeros(k - 1), '0');
    }
  }

  lemma {:induction false} NumeralDigits(k: nat, n: nat)
    ensures Digits(Zeros(k) + Numeral(n)) == Some(n)
    decreases n
  {
    if n < 10 {
      ZerosRead(k);
      DigitsSnoc(Zeros(k), Digit(n));
    } else {
      NumeralDigits(k, n / 10);
      DigitsSnoc(Zeros(k) + Numeral(n / 10), Digit(n % 10));
      assert Zeros(k) + Numeral(n) == Zeros(k) + Numeral(n / 10) + [Digit(n % 10)];
    }
  }

  lemma NumeralSnoc(n: nat, d: nat)
    requires d < 10 && n > 0
    ensures Numeral(10 * n + d) == Numeral(n) + [Digit(d)]
  {
    assert (10 * n + d) / 10 == n && (10 * n + d) % 10 == d;
  }

  /** Only numerals are read as numbers, zeros in front of them apart. */
  lemma {:induction false} DigitsNumeral(s: string) returns (k: nat)
    requires s != "" && Digits(s).Some?
    ensures s == Zeros(k) + Numeral(Digits(s).value)
  {
    var init, c := s[..|s| - 1], s[|s| - 1];
    assert s == init + [c];
    var d := c as int - '0' as int;
    assert Digit(d) == c;
    if init == "" {
      k := 0;
    } else {
      k := DigitsNumeral(init);
      var w := Digits(init).value;
      if w == 0 {
        k := k + 1;
      } else {
        NumeralSnoc(w, d);
      }
    }
  }

  predicate Signed(s: string) {
    s != "" && (s[0] == '+' || s[0] == '-')
  }

  lemma {:induction false} NumeralHead(n: nat)
    ensures '0' <= Numeral(n)[0] <= '9'
    decreases n
  {
    if n >= 10 {
      NumeralHead(n / 10);
    }
  }

  lemma ZeroNumeralHead(k: nat, n: nat)
    ensures var s := Zeros(k) + Numeral(n); s != "" && '0' <= s[0] <= '9'
  {
    if k == 0 {
      NumeralHead(n);
    } else {
      ZerosAll(k);
    }
  }

  lemma {:induction false} ZerosAll(k: nat)
    ensures forall i :: 0 <= i < k ==> Zeros(k)[i] == '0'
  {
    if k > 0 {
      ZerosAll(k - 1);
    }
  }

  /** A numeral reads as its number, with zeros in front or a sign too, as long
      as it fits an int64. */
  lemma NumeralReads(k: nat, n: nat)
    ensures var s, v: int := Zeros(k) + Numeral(n), n;
            && Atoi(s) == (if v <= MAX_INT64 then Some(v) else None)
            && Atoi("+" + s) == (if v <= MAX_INT64 then Some(v) else None)
            && Atoi("-" + s) == if v <= MAX_INT64 + 1 then Some(-v) else None
  {
    var s := Zeros(k) + Numeral(n);
    NumeralDigits(k, n);
    ZeroNumeralHead(k, n);
    assert ("+" + s)[1..] == s && ("-" + s)[1..] == s;
  }

  /** Nothing else is read as a number. */
  lemma OnlyNumerals(s: string) returns (k: nat, n: nat)
    requires Atoi(s).Some?
    ensures var t := Zeros(k) + Numeral(n);
            (Atoi(s).value == n && (s == t || s == "+" + t)) || (Atoi(s).value + n == 0 && s == "-" + t)
  {
    var digits := if Signed(s) then s[1..] else s;
    k := DigitsNumeral(digits);
    n := Digits(digits).value;
    if Signed(s) {
      assert s == [s[0]] + digits;
    }
  }

  // ---- Names ----

  const MONTH_NAMES := ["jan", "feb", "mar", "apr", "may", "jun", "jul", "aug", "sep", "oct", "nov", "dec"]

  const WEEKDAY_NAMES := ["sun", "mon", "tue", "wed", "thu", "fri", "sat"]

  predicate Lettered(s: string) {
    s != "" && 'a' <= s[0] <= 'z'
  }

  /** The names of months count from 1, and there are no others. */
  lemma MonthsRead()
    ensures forall k :: 0 <= k < 12 ==> Num(MONTH_NAMES[k], YEAR) == Some(k + 1)
    ensures forall s :: s in YEAR.names ==> s in MONTH_NAMES
  {
    hide Atoi;
  }

  /** Those of weekdays from 0, Sunday. */
  lemma WeekdaysRead()
    ensures forall k :: 0 <= k < 7 ==> Num(WEEKDAY_NAMES[k], WEEK) == Some(k)
    ensures forall s :: s in WEEK.names ==> s in WEEKDAY_NAMES
  {
    hide Atoi;
  }

  lemma NamesLettered(s: string)
    requires s in MONTHS || s in WEEKDAYS
    ensures Lettered(s)
  {
  }

  /** In any field, a number within the bounds reads as itself. */
  lemma NumberReads(f: nat, n: nat)
    requires f < 5 && BoundsOf(f).lo <= n <= BoundsOf(f).hi
    ensures Num(Numeral(n), BoundsOf(f)) == Some(n)
  {
    hide Numeral, Digits, Atoi;
    NumeralReads(0, n);
    assert Zeros(0) + Numeral(n) == Numeral(n);
    NumeralHead(n);
    NotNamed(Numeral(n), f);
  }

  lemma NotNamed(s: string, f: nat)
    requires s != "" && '0' <= s[0] <= '9' && f < 5
    ensures s !in BoundsOf(f).names
  {
    if s in MONTHS || s in WEEKDAYS {
      NamesLettered(s);
    }
  }

  // ---- Parts ----

  /** What comes before the step: a star, a number or name, or two of them. */
  datatype Range = Star | One(x: string) | Between(x: string, y: string)

  datatype Form = Form(range: Range, step: Option<string>)

  predicate Without(s: string, c: char) {
    forall i :: 0 <= i < |s| ==> s[i] != c
  }

  predicate Written(p: Form) {
    match p.range
    case Star => true
    case One(x) => x != "*" && Without(x, '/') && Without(x, '-')
    case Between(x, y) => Without(x, '/') && Without(x, '-') && Without(y, '/')
  }

  function RangeText(r: Range): string {
    match r
    case Star => "*"
    case One(x) => x
    case Between(x, y) => x + "-" + y
  }

  function Text(p: Form): string {
    RangeText(p.range) + if p.step.Some? then "/" + p.step.value else ""
  }

  lemma {:induction false} CutAt(before: string, sep: char, after: string)
    requires Without(before, sep)
    ensures Cut(before + [sep] + after, sep) == (before, Some(after))
  {
    var s := before + [sep] + after;
    if before == "" {
      assert s[1..] == after;
    } else {
      var rest := before[1..];
      CutAt(rest, sep, after);
      assert s[1..] == rest + [sep] + after && [before[0]] + rest == before;
    }
  }

  lemma {:induction false} CutIs(s: string, sep: char)
    ensures var (before, after) := Cut(s, sep);
            Without(before, sep) && s == before + if after.Some? then [sep] + after.value else ""
  {
    if s != "" && s[0] != sep {
      CutIs(s[1..], sep);
      assert s == [s[0]] + s[1..];
    } else if s != "" {
      assert s == [s[0]] + s[1..];
    }
  }

  lemma WithoutParts(x: string, mid: string, y: string, c: char)
    requires Without(x + mid + y, c)
    ensures Without(x, c) && Without(y, c)
  {
    forall i | 0 <= i < |x| ensures x[i] != c {
      assert (x + mid + y)[i] == x[i];
    }
    forall i | 0 <= i < |y| ensures y[i] != c {
      assert (x + mid + y)[|x| + |mid| + i] == y[i];
    }
  }

  /** Every text is written in one of these ways. */
  lemma EveryText(text: string) returns (p: Form)
    ensures Written(p) && Text(p) == text
  {
    hide Cut;
    var (rng, step) := Cut(text, '/');
    CutIs(text, '/');
    assert text == rng + if step.Some? then "/" + step.value else "" by { assert ['/'] == "/"; }
    if rng == "*" {
      p := Form(Star, step);
    } else if '-' in rng {
      var (x, y) := Cut(rng, '-');
      CutIs(rng, '-');
      assert rng == x + "-" + y.value by { assert ['-'] == "-"; }
      WithoutParts(x, "-", y.value, '/');
      p := Form(Between(x, y.value), step);
    } else {
      p := Form(One(rng), step);
    }
  }

  /** The numbers and names are ones, in order, and the step is a number from 1. */
  predicate WellMade(p: Form, d: Bounds) {
    && (p.step.Some? ==> Atoi(p.step.value).Some? && Atoi(p.step.value).value >= 1)
    && match p.range
       case Star => true
       case One(x) => Num(x, d).Some?
       case Between(x, y) => Num(x, d).Some? && Num(y, d).Some? && Num(x, d).value <= Num(y, d).value
  }

  /** Every s from a to b, counting from a. */
  predicate Counts(a: int, b: int, s: int, i: int) {
    s > 0 && a <= i <= b && (i - a) % s == 0
  }

  function Stride(p: Form): int
    requires p.step.Some? ==> Atoi(p.step.value).Some?
  {
    if p.step.Some? then Atoi(p.step.value).value else 1
  }

  /** What a part lists: x alone lists x, and with a step it starts there and
      goes on to the end. */
  predicate Means(p: Form, d: Bounds, i: int)
    requires WellMade(p, d)
  {
    var s := Stride(p);
    match p.range
    case Star => Counts(d.lo, d.hi, s, i)
    case One(x) => if p.step.None? then i == Num(x, d).value else Counts(Num(x, d).value, d.hi, s, i)
    case Between(x, y) => Counts(Num(x, d).value, Num(y, d).value, s, i)
  }

  function First(p: Form, d: Bounds): int
    requires WellMade(p, d)
  {
    match p.range
    case Star => d.lo
    case One(x) => Num(x, d).value
    case Between(x, _) => Num(x, d).value
  }

  lemma TextCut(p: Form)
    requires Written(p)
    ensures Cut(Text(p), '/') == (RangeText(p.range), p.step)
  {
    var r := RangeText(p.range);
    if p.range.Between? {
      forall i | 0 <= i < |r| ensures r[i] != '/' {
        assert r[i] == if i < |p.range.x| then p.range.x[i] else if i == |p.range.x| then '-'
                       else p.range.y[i - |p.range.x| - 1];
      }
    }
    if p.step.Some? {
      CutAt(r, '/', p.step.value);
      assert Text(p) == r + ['/'] + p.step.value;
    } else {
      OnePart(r, '/');
      assert Text(p) == r;
    }
  }

  lemma RangeCut(r: Range)
    requires Written(Form(r, None)) && r.Between?
    ensures '-' in RangeText(r) && RangeText(r) != "*" && Cut(RangeText(r), '-') == (r.x, Some(r.y))
  {
    CutAt(r.x, '-', r.y);
    assert RangeText(r) == r.x + ['-'] + r.y;
    assert RangeText(r)[|r.x|] == '-';
  }

  /** A part is read exactly when it is well made, and reaches what it means. */
  lemma PartReads(p: Form, d: Bounds)
    requires Valid(d) && Written(p)
    ensures ReadPart(Text(p), d).Some? <==> WellMade(p, d)
    ensures WellMade(p, d) ==> forall i :: In(ReadPart(Text(p), d).value, i) <==> Means(p, d, i)
    ensures WellMade(p, d) ==> (Wraps(ReadPart(Text(p), d).value) <==> First(p, d) + Stride(p) > MAX_INT64)
  {
    hide Cut, Atoi, Num;
    TextCut(p);
    if p.range.Between? {
      RangeCut(p.range);
    } else if p.range.One? {
      assert '-' !in p.range.x;
    }
  }

  // ---- Fields ----

  function Join(pieces: seq<string>, sep: char): string
    requires pieces != []
  {
    if |pieces| == 1 then pieces[0] else pieces[0] + [sep] + Join(pieces[1..], sep)
  }

  lemma {:induction false} SplitAt(piece: string, sep: char, rest: string)
    requires Without(piece, sep)
    ensures Split(piece + [sep] + rest, sep) == [piece] + Split(rest, sep)
  {
    var s := piece + [sep] + rest;
    if piece == "" {
      assert s[1..] == rest;
    } else {
      SplitAt(piece[1..], sep, rest);
      assert s[1..] == piece[1..] + [sep] + rest && [piece[0]] + piece[1..] == piece;
      var more := [piece[1..]] + Split(rest, sep);
      assert more[1..] == Split(rest, sep);
    }
  }

  /** Splitting takes joined pieces apart again. */
  lemma {:induction false} SplitJoined(pieces: seq<string>, sep: char)
    requires pieces != [] && forall k :: 0 <= k < |pieces| ==> Without(pieces[k], sep)
    ensures Split(Join(pieces, sep), sep) == pieces
  {
    if |pieces| == 1 {
      OnePart(pieces[0], sep);
    } else {
      SplitJoined(pieces[1..], sep);
      SplitAt(pieces[0], sep, Join(pieces[1..], sep));
    }
  }

  /** And every text is its pieces joined. */
  lemma {:induction false} JoinSplit(s: string, sep: char)
    ensures Join(Split(s, sep), sep) == s && forall k :: 0 <= k < |Split(s, sep)| ==> Without(Split(s, sep)[k], sep)
  {
    if s != "" {
      var rest := Split(s[1..], sep);
      JoinSplit(s[1..], sep);
      assert s == [s[0]] + s[1..];
      if s[0] == sep {
        assert Split(s, sep)[1..] == rest;
        assert "" + [sep] + s[1..] == s;
      } else {
        assert Split(s, sep)[1..] == rest[1..];
        if |rest| > 1 {
          assert ([s[0]] + rest[0]) + [sep] + Join(rest[1..], sep) == [s[0]] + Join(rest, sep);
        }
      }
    }
  }

  function Texts(forms: seq<Form>): (pieces: seq<string>)
    ensures |pieces| == |forms| && forall k :: 0 <= k < |forms| ==> pieces[k] == Text(forms[k])
  {
    seq(|forms|, k requires 0 <= k < |forms| => Text(forms[k]))
  }

  /** A list of parts, none with a comma in it. */
  predicate WrittenList(forms: seq<Form>) {
    forms != [] && forall k :: 0 <= k < |forms| ==> Written(forms[k]) && Without(Text(forms[k]), ',')
  }

  function FieldText(forms: seq<Form>): string
    requires WrittenList(forms)
  {
    Join(Texts(forms), ',')
  }

  /** A field's text is a list of parts. */
  lemma EveryField(text: string) returns (forms: seq<Form>)
    ensures WrittenList(forms) && FieldText(forms) == text
  {
    hide Split, Join, Text, Written;
    var pieces := Split(text, ',');
    JoinSplit(text, ',');
    forms := [];
    while |forms| < |pieces|
      invariant |forms| <= |pieces| && Texts(forms) == pieces[..|forms|]
      invariant forall k :: 0 <= k < |forms| ==> Written(forms[k])
    {
      var p := EveryText(pieces[|forms|]);
      assert Texts(forms + [p]) == Texts(forms) + [Text(p)];
      forms := forms + [p];
    }
    assert pieces[..|forms|] == pieces;
    forall k | 0 <= k < |forms| ensures Without(Text(forms[k]), ',') {
      assert pieces[k] == Text(forms[k]);
    }
  }

  predicate Lists(p: Form, d: Bounds, i: int) {
    WellMade(p, d) && Means(p, d, i)
  }

  /** A part's step may not take its first value past the largest int64. */
  predicate Usable(p: Form, d: Bounds) {
    WellMade(p, d) && First(p, d) + Stride(p) <= MAX_INT64
  }

  lemma ListedMeans(forms: seq<Form>, d: Bounds, i: int)
    requires Valid(d) && WrittenList(forms)
    ensures Listed(Texts(forms), d, i) <==> exists k :: 0 <= k < |forms| && Lists(forms[k], d, i)
  {
    hide ReadPart, In, Text, WellMade, Means, Written;
    var parts := Texts(forms);
    forall k | 0 <= k < |forms|
      ensures ReadPart(parts[k], d).Some? && In(ReadPart(parts[k], d).value, i) <==> Lists(forms[k], d, i)
    {
      PartReads(forms[k], d);
    }
  }

  /** A field is accepted exactly when each of its parts can be used, and then
      holds what any of them lists. */
  lemma FieldReads(forms: seq<Form>, d: Bounds)
    requires Valid(d) && WrittenList(forms)
    ensures var f := FieldOf(Split(FieldText(forms), ','), d);
            && (f.Bits? <==> forall k :: 0 <= k < |forms| ==> Usable(forms[k], d))
            && (f.Bits? ==> forall i :: i in f.bits <==> exists k :: 0 <= k < |forms| && Lists(forms[k], d, i))
  {
    hide ReadPart, In, Text, WellMade, Means, Written, Split, Join, FieldOf, Lists, Wraps, Valid, Listed;
    var parts := Texts(forms);
    SplitJoined(parts, ',');
    FieldAccepted(parts, d);
    forall k | 0 <= k < |forms| ensures PartFits(parts, d, k) <==> Usable(forms[k], d) {
      PartReads(forms[k], d);
    }
    if FieldOf(parts, d).Bits? {
      FieldMeans(parts, d);
      forall i ensures i in FieldOf(parts, d).bits <==> exists k :: 0 <= k < |forms| && Lists(forms[k], d, i) {
        ListedMeans(forms, d, i);
      }
    }
  }

  // ---- A whole expression ----

  /** "min hour * * a-b". */
  function OnSomeDays(min: nat, hour: nat, a: nat, b: nat): seq<string> {
    [Numeral(min), Numeral(hour), "*", "*", Numeral(a) + "-" + Numeral(b)]
  }

  /** A number, as a field. */
  function Number(n: nat): Form {
    Form(One(Numeral(n)), None)
  }

  lemma {:induction false} NumeralChars(n: nat)
    ensures forall i :: 0 <= i < |Numeral(n)| ==> '0' <= Numeral(n)[i] <= '9'
    decreases n
  {
    if n >= 10 {
      NumeralChars(n / 10);
    }
  }

  /** A field of one part. */
  lemma OneReads(p: Form, f: nat)
    requires f < 5 && Written(p) && Without(Text(p), ',') && Usable(p, BoundsOf(f))
    ensures var r := FieldOf(Split(Text(p), ','), BoundsOf(f));
            r.Bits? && forall i :: i in r.bits <==> Lists(p, BoundsOf(f), i)
  {
    hide Written, Without, Text, Usable, Lists, FieldOf, Split, WellMade;
    FieldReads([p], BoundsOf(f));
    assert Texts([p]) == [Text(p)];
    assert Usable([p][0], BoundsOf(f));
    var r := FieldOf(Split(Text(p), ','), BoundsOf(f));
    forall i ensures i in r.bits <==> Lists(p, BoundsOf(f), i) {
      assert i in r.bits <==> exists k :: 0 <= k < |[p]| && Lists([p][k], BoundsOf(f), i);
      assert Lists([p][0], BoundsOf(f), i) == Lists(p, BoundsOf(f), i);
    }
  }

  lemma NumberField(n: nat, f: nat)
    requires f < 5 && BoundsOf(f).lo <= n <= BoundsOf(f).hi
    ensures FieldOf(Split(Numeral(n), ','), BoundsOf(f)) == Bits({n})
  {
    hide Numeral, Num, FieldOf, Split;
    NumeralChars(n);
    NumberReads(f, n);
    assert Numeral(n) != "*" by { assert "*"[0] == '*'; }
    assert Text(Number(n)) == Numeral(n);
    OneReads(Number(n), f);
    var r := FieldOf(Split(Numeral(n), ','), BoundsOf(f));
    forall i ensures i in r.bits <==> i in {n} {}
  }

  lemma StarField(f: nat)
    requires f < 5
    ensures var r := FieldOf(Split("*", ','), BoundsOf(f));
            r.Bits? && forall i :: i in r.bits <==> BoundsOf(f).lo <= i <= BoundsOf(f).hi
  {
    hide FieldOf, Split;
    assert Text(Form(Star, None)) == "*";
    OneReads(Form(Star, None), f);
  }

  lemma RangeField(a: nat, b: nat, f: nat)
    requires f < 5 && BoundsOf(f).lo <= a <= b <= BoundsOf(f).hi
    ensures var r := FieldOf(Split(Numeral(a) + "-" + Numeral(b), ','), BoundsOf(f));
            r.Bits? && forall i :: i in r.bits <==> a <= i <= b
  {
    hide Numeral, Num, FieldOf, Split;
    NumeralChars(a);
    NumeralChars(b);
    NumberReads(f, a);
    NumberReads(f, b);
    var p := Form(Between(Numeral(a), Numeral(b)), None);
    assert Text(p) == Numeral(a) + "-" + Numeral(b);
    OneReads(p, f);
  }

  /** "min hour * * a-b" runs at that time on those days of the week, and at no
      other time. */
  lemma RunsOnSomeDays(min: nat, hour: nat, a: nat, b: nat, x: int)
    requires min < 60 && hour < 24 && a <= b < 7
    ensures var f := OnSomeDays(min, hour, a, b);
            && Parse(f).Expr?
            && (Matches(Parse(f).c, x) <==>
                Calendar.MinuteOf(x) == min && Calendar.HourOf(x) == hour &&
                a <= Calendar.Weekday(Calendar.DayNo(x)) <= b)
  {
    hide Numeral, FieldOf, Split, Calendar.MinuteOf, Calendar.HourOf, Calendar.Weekday, Calendar.DayNo, Calendar.Month,
      Calendar.Day;
    var f := OnSomeDays(min, hour, a, b);
    NumberField(min, 0);
    NumberField(hour, 1);
    StarField(2);
    StarField(3);
    RangeField(a, b, 4);
    NumeralChars(a);
    assert f[4][0] == Numeral(a)[0];
    assert 1 <= Calendar.Month(Calendar.DayNo(x)) <= 12;
  }
}

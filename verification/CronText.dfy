/** Reading a cron expression: what its fields' texts stand for. */
module CronText {
  import opened Events
  import opened Schedule
  import Calendar

  type Names = map<string, int>

  const NO_NAMES: Names := map[]

  const MONTHS: Names := map["jan" := 1, "feb" := 2, "mar" := 3, "apr" := 4, "may" := 5, "jun" := 6, "jul" := 7,
                             "aug" := 8, "sep" := 9, "oct" := 10, "nov" := 11, "dec" := 12]

  const WEEKDAYS: Names := map["sun" := 0, "mon" := 1, "tue" := 2, "wed" := 3, "thu" := 4, "fri" := 5, "sat" := 6]

  // ---- Strings ----

  /** The pieces of s between the separators; there is always one. */
  function Split(s: string, sep: char): (pieces: seq<string>)
    ensures |pieces| >= 1
  {
    if s == [] then [""]
    else
      var rest := Split(s[1..], sep);
      if s[0] == sep then [""] + rest else [[s[0]] + rest[0]] + rest[1..]
  }

  /** s around the first separator, if it has one. */
  function Cut(s: string, sep: char): (string, Option<string>) {
    if s == [] then ("", None)
    else if s[0] == sep then ("", Some(s[1..]))
    else
      var (before, after) := Cut(s[1..], sep);
      ([s[0]] + before, after)
  }

  function Digits(s: string): Option<nat> {
    if s == [] then Some(0)
    else
      var init, d := Digits(s[..|s| - 1]), s[|s| - 1];
      if init.Some? && '0' <= d <= '9' then Some(10 * init.value + (d as int - '0' as int)) else None
  }

  /** A decimal number with or without a sign, if it fits an int64. */
  function Atoi(s: string): (r: Option<int>)
    ensures r.Some? ==> r.value <= MAX_INT64
  {
    var signed := s != [] && (s[0] == '+' || s[0] == '-');
    var digits := if signed then s[1..] else s;
    if digits == [] || Digits(digits).None? then None
    else
      var v: int := Digits(digits).value;
      var n := if signed && s[0] == '-' then -v else v;
      if -MAX_INT64 - 1 <= n <= MAX_INT64 then Some(n) else None
  }

  // ---- Fields ----

  /** A field's values are lo to hi, some of which have names. */
  datatype Bounds = Bounds(lo: int, hi: int, names: Names)

  predicate Valid(d: Bounds) {
    0 <= d.lo <= d.hi < 64 && forall x :: x in d.names ==> d.lo <= d.names[x] <= d.hi
  }

  function Num(s: string, d: Bounds): (r: Option<int>)
    ensures Valid(d) && r.Some? ==> d.lo <= r.value <= d.hi
  {
    if s in d.names then Some(d.names[s])
    else if Atoi(s).Some? && d.lo <= Atoi(s).value <= d.hi then Atoi(s)
    else None
  }

  /** From a to b in steps. */
  datatype Part = Part(a: int, b: int, step: int)

  function StepOf(text: Option<string>): (r: Option<int>)
    ensures r.Some? ==> 1 <= r.value <= MAX_INT64
  {
    if text.None? then Some(1)
    else if Atoi(text.value).Some? && Atoi(text.value).value >= 1 then Atoi(text.value)
    else None
  }

  /** One part of a list: "*", a range or a number, and a step on it. */
  function ReadPart(text: string, d: Bounds): (r: Option<Part>)
    ensures Valid(d) && r.Some? ==> d.lo <= r.value.a <= r.value.b <= d.hi && 1 <= r.value.step <= MAX_INT64
  {
    var (rng, stepText) := Cut(text, '/');
    var step := StepOf(stepText);
    if step.None? then None
    else if rng == "*" then Some(Part(d.lo, d.hi, step.value))
    else if '-' in rng then
      var (x, y) := Cut(rng, '-');
      var a, b := Num(x, d), if y.Some? then Num(y.value, d) else None;
      if a.Some? && b.Some? && a.value <= b.value then Some(Part(a.value, b.value, step.value)) else None
    else
      var n := Num(rng, d);
      if n.None? then None else Some(Part(n.value, if stepText.Some? then d.hi else n.value, step.value))
  }

  /** The bits of a field, or why there are none: text that is not one, or a
      loop whose index wraps around an int64 and shifts by a negative number. */
  datatype Field = Bits(bits: set<int>) | Invalid | Panic

  predicate In(p: Part, i: int)
    requires p.step > 0
  {
    p.a <= i <= p.b && (i - p.a) % p.step == 0
  }

  function Values(p: Part): set<int>
    requires p.step > 0
  {
    set i | p.a <= i <= p.b && In(p, i)
  }

  /** A step so large that even the first does not fit. */
  predicate Wraps(p: Part) {
    p.a + p.step > MAX_INT64
  }

  function FieldOf(parts: seq<string>, d: Bounds): Field
    requires Valid(d)
  {
    if parts == [] then Bits({})
    else
      var init, p := FieldOf(parts[..|parts| - 1], d), ReadPart(parts[|parts| - 1], d);
      if !init.Bits? then init
      else if p.None? then Invalid
      else if Wraps(p.value) then Panic
      else Bits(init.bits + Values(p.value))
  }

  lemma StepsReach(p: Part, i: int)
    requires p.step > 0 && p.a <= i && (i - p.a) % p.step == 0
    ensures (i + p.step - p.a) % p.step == 0
    ensures forall x :: i < x < i + p.step ==> !In(p, x)
  {
    NextMultiple(i - p.a, p.step);
    forall x | i < x < i + p.step ensures !In(p, x) {
      if In(p, x) {
        MultiplesApart(i - p.a, x - p.a, p.step);
      }
    }
  }

  /** The bits of one part, or none if the index would wrap around. */
  method PartBits(p: Part, d: Bounds) returns (r: Option<set<int>>)
    requires Valid(d) && d.lo <= p.a <= p.b <= d.hi && 1 <= p.step <= MAX_INT64
    ensures r == if Wraps(p) then None else Some(Values(p))
  {
    hide In;
    var bits, i := {}, p.a;
    FirstStep(p);
    while i <= p.b
      invariant p.a <= i && (i - p.a) % p.step == 0 && (i > p.a ==> !Wraps(p))
      invariant forall x :: x in bits <==> x in Values(p) && x < i
      decreases p.b - i
    {
      StepsReach(p, i);
      AtStep(p, i);
      bits := bits + {i};
      if i > MAX_INT64 - p.step {
        assert Wraps(p) by { SmallSteps(p, i); }
        return None;
      }
      i := i + p.step;
    }
    assert bits == Values(p);
    return Some(bits);
  }

  lemma FirstStep(p: Part)
    requires p.step > 0
    ensures (p.a - p.a) % p.step == 0 && forall x :: x in Values(p) ==> x >= p.a
  {
  }

  lemma AtStep(p: Part, i: int)
    requires p.step > 0 && p.a <= i <= p.b && (i - p.a) % p.step == 0
    ensures i in Values(p)
  {
  }

  /** An index past the first has taken a step that fits between bits. */
  lemma SmallSteps(p: Part, i: int)
    requires p.step > 0 && 0 <= p.a <= i <= p.b < 64 && (i - p.a) % p.step == 0 && i + p.step > MAX_INT64
    ensures i == p.a
  {
    if i > p.a {
      MultiplesApart(0, i - p.a, p.step);
    }
  }

  /** A field is read part by part. */
  method CronField(text: string, d: Bounds) returns (r: Field)
    requires Valid(d)
    ensures r == FieldOf(Split(text, ','), d)
  {
    var parts := Split(text, ',');
    var bits, k := {}, 0;
    while k < |parts|
      invariant 0 <= k <= |parts| && FieldOf(parts[..k], d) == Bits(bits)
    {
      FieldGoesOn(parts, k, d);
      var p := ReadPart(parts[k], d);
      if p.None? {
        return Invalid;
      }
      var more := PartBits(p.value, d);
      if more.None? {
        return Panic;
      }
      bits := bits + more.value;
      k := k + 1;
    }
    assert parts[..k] == parts;
    return Bits(bits);
  }

  lemma FieldGoesOn(parts: seq<string>, k: nat, d: Bounds)
    requires Valid(d) && k < |parts| && FieldOf(parts[..k], d).Bits?
    ensures var p, bits := ReadPart(parts[k], d), FieldOf(parts[..k], d).bits;
            && FieldOf(parts[..k + 1], d) ==
               (if p.None? then Invalid else if Wraps(p.value) then Panic else Bits(bits + Values(p.value)))
            && (FieldOf(parts[..k + 1], d).Bits? || FieldOf(parts, d) == FieldOf(parts[..k + 1], d))
  {
    assert parts[..k + 1][..k] == parts[..k];
    if !FieldOf(parts[..k + 1], d).Bits? {
      FieldStops(parts, k + 1, d);
    }
  }

  lemma {:induction false} FieldStops(parts: seq<string>, k: nat, d: Bounds)
    requires Valid(d) && k <= |parts| && !FieldOf(parts[..k], d).Bits?
    ensures FieldOf(parts, d) == FieldOf(parts[..k], d)
  {
    if k < |parts| {
      assert parts[..|parts| - 1][..k] == parts[..k];
      FieldStops(parts[..|parts| - 1], k, d);
    } else {
      assert parts[..k] == parts;
    }
  }

  /** Some part of the list reaches i. */
  ghost predicate Listed(parts: seq<string>, d: Bounds, i: int)
    requires Valid(d)
  {
    exists k :: 0 <= k < |parts| && ReadPart(parts[k], d).Some? && In(ReadPart(parts[k], d).value, i)
  }

  /** Part k is read, and the loop over its values ends. */
  predicate PartFits(parts: seq<string>, d: Bounds, k: int)
    requires 0 <= k < |parts|
  {
    ReadPart(parts[k], d).Some? && !Wraps(ReadPart(parts[k], d).value)
  }

  /** A field is accepted exactly when each of its parts is one and no step is
      too large. */
  lemma {:induction false} FieldAccepted(parts: seq<string>, d: Bounds)
    requires Valid(d)
    ensures FieldOf(parts, d).Bits? <==> forall k :: 0 <= k < |parts| ==> PartFits(parts, d, k)
  {
    hide ReadPart, Wraps, Values;
    if parts != [] {
      var n := |parts| - 1;
      var init := parts[..n];
      FieldAccepted(init, d);
      forall k | 0 <= k < n ensures PartFits(init, d, k) <==> PartFits(parts, d, k) {}
      assert FieldOf(parts, d).Bits? <==> FieldOf(init, d).Bits? && PartFits(parts, d, n);
    }
  }

  /** The first part that has no values is one, but its loop wraps around. */
  ghost predicate WrapsAt(parts: seq<string>, d: Bounds, k: int)
    requires 0 <= k < |parts|
  {
    && ReadPart(parts[k], d).Some? && Wraps(ReadPart(parts[k], d).value)
    && forall j :: 0 <= j < k ==> PartFits(parts, d, j)
  }

  /** Reading a field panics exactly when some part of its list has a step too
      large and every part before it is read: nothing else in a field does. */
  lemma {:induction false} FieldPanics(parts: seq<string>, d: Bounds)
    requires Valid(d)
    ensures FieldOf(parts, d).Panic? <==> exists k :: 0 <= k < |parts| && WrapsAt(parts, d, k)
  {
    hide ReadPart, Wraps, Values;
    if parts != [] {
      var n := |parts| - 1;
      var init := parts[..n];
      FieldPanics(init, d);
      FieldAccepted(init, d);
      forall j | 0 <= j < n ensures PartFits(init, d, j) <==> PartFits(parts, d, j) {}
      forall k | 0 <= k < n ensures WrapsAt(init, d, k) <==> WrapsAt(parts, d, k) {}
      if FieldOf(init, d).Bits? {
        assert FieldOf(parts, d).Panic? <==> WrapsAt(parts, d, n);
      } else {
        assert !WrapsAt(parts, d, n);
      }
    }
  }

  /** What an accepted field means: the values its parts reach, all within
      bounds. */
  lemma {:induction false} FieldMeans(parts: seq<string>, d: Bounds)
    requires Valid(d) && FieldOf(parts, d).Bits?
    ensures forall i :: i in FieldOf(parts, d).bits <==> Listed(parts, d, i)
    ensures forall k :: 0 <= k < |parts| ==> ReadPart(parts[k], d).Some?
    ensures forall i :: i in FieldOf(parts, d).bits ==> d.lo <= i <= d.hi
  {
    hide ReadPart, In, Values, Listed, Valid, Wraps;
    if parts == [] {
      NothingListed(d);
    } else {
      var init, last := parts[..|parts| - 1], parts[|parts| - 1];
      FieldMeans(init, d);
      forall i ensures Listed(parts, d, i) <==> Listed(init, d, i) || In(ReadPart(last, d).value, i) {
        ListedSnoc(parts, d, i);
      }
      PartWithin(ReadPart(last, d).value);
    }
  }

  lemma NothingListed(d: Bounds)
    requires Valid(d)
    ensures forall i :: !Listed([], d, i)
  {
  }

  lemma PartWithin(p: Part)
    requires p.step > 0
    ensures forall i :: i in Values(p) <==> In(p, i)
    ensures forall i :: In(p, i) ==> p.a <= i <= p.b
  {
  }

  lemma ListedSnoc(parts: seq<string>, d: Bounds, i: int)
    requires Valid(d) && parts != [] && ReadPart(parts[|parts| - 1], d).Some?
    ensures Listed(parts, d, i) <==>
            Listed(parts[..|parts| - 1], d, i) || In(ReadPart(parts[|parts| - 1], d).value, i)
  {
    hide ReadPart, In;
    var init := parts[..|parts| - 1];
    if Listed(init, d, i) {
      var k :| 0 <= k < |init| && ReadPart(init[k], d).Some? && In(ReadPart(init[k], d).value, i);
      assert parts[k] == init[k];
    }
    if Listed(parts, d, i) {
      var k :| 0 <= k < |parts| && ReadPart(parts[k], d).Some? && In(ReadPart(parts[k], d).value, i);
      assert k < |init| ==> init[k] == parts[k];
    }
  }

  /** No field is empty. */
  lemma FieldNotEmpty(text: string, d: Bounds) returns (i: int)
    requires Valid(d) && FieldOf(Split(text, ','), d).Bits?
    ensures i in FieldOf(Split(text, ','), d).bits && d.lo <= i <= d.hi
  {
    var parts := Split(text, ',');
    FieldMeans(parts, d);
    var p := ReadPart(parts[0], d).value;
    i := p.a;
    assert In(p, i) && Listed(parts, d, i);
  }

  // ---- Expressions ----

  datatype Parsed = Expr(c: CronExpr) | BadExpr | Panics

  const MINUTES := Bounds(0, 59, NO_NAMES)
  const HOURS := Bounds(0, 23, NO_NAMES)
  const DAYS := Bounds(1, 31, NO_NAMES)
  const YEAR := Bounds(1, 12, MONTHS)
  const WEEK := Bounds(0, 7, WEEKDAYS)

  function BoundsOf(k: int): (d: Bounds)
    ensures Valid(d)
  {
    if k == 0 then MINUTES else if k == 1 then HOURS else if k == 2 then DAYS else if k == 3 then YEAR else WEEK
  }

  predicate Starred(text: string) {
    text != [] && text[0] == '*'
  }

  /** What is read from the five fields: the first that has no bits decides. */
  function ParseFields(min: Field, hour: Field, dom: Field, month: Field, dow: Field, domStar: bool, dowStar: bool)
    : Parsed
  {
    if !min.Bits? then NoExpr(min)
    else if !hour.Bits? then NoExpr(hour)
    else if !dom.Bits? then NoExpr(dom)
    else if !month.Bits? then NoExpr(month)
    else if !dow.Bits? then NoExpr(dow)
    else
      var days := if 7 in dow.bits then dow.bits + {0} else dow.bits;  // 7 is Sunday too
      Expr(CronExpr(min.bits, hour.bits, dom.bits, month.bits, days, domStar, dowStar))
  }

  function NoExpr(f: Field): Parsed {
    if f.Panic? then Panics else BadExpr
  }

  function FieldAt(f: seq<string>, k: nat): Field
    requires k < |f|
  {
    FieldOf(Split(f[k], ','), BoundsOf(k))
  }

  function Parse(f: seq<string>): Parsed
    requires |f| == 5
  {
    ParseFields(FieldAt(f, 0), FieldAt(f, 1), FieldAt(f, 2), FieldAt(f, 3), FieldAt(f, 4), Starred(f[2]), Starred(f[4]))
  }

  /** The five fields of an expression, none empty. */
  method ParseCron(f: seq<string>) returns (r: Parsed)
    requires |f| == 5 && forall k :: 0 <= k < 5 ==> f[k] != []
    ensures r == Parse(f)
  {
    hide FieldOf, Split, Valid;
    var min := CronField(f[0], MINUTES);
    if !min.Bits? {
      return NoExpr(min);
    }
    var hour := CronField(f[1], HOURS);
    if !hour.Bits? {
      return NoExpr(hour);
    }
    var dom := CronField(f[2], DAYS);
    if !dom.Bits? {
      return NoExpr(dom);
    }
    var month := CronField(f[3], YEAR);
    if !month.Bits? {
      return NoExpr(month);
    }
    var dow := CronField(f[4], WEEK);
    if !dow.Bits? {
      return NoExpr(dow);
    }
    var days := dow.bits;
    if 7 in days {
      days := days + {0};
    }
    return Expr(CronExpr(min.bits, hour.bits, dom.bits, month.bits, days, f[2][0] == '*', f[4][0] == '*'));
  }

  /** Field k is the first without bits. */
  ghost predicate FirstWithout(f: seq<string>, k: nat)
    requires k < |f|
  {
    !FieldAt(f, k).Bits? && forall j :: 0 <= j < k ==> FieldAt(f, j).Bits?
  }

  /** Reading an expression panics exactly when reading one of its fields does
      and every field before it has bits: an error in an earlier field is
      reported first. */
  lemma ParsePanics(f: seq<string>)
    requires |f| == 5
    ensures Parse(f).Panics? <==> exists k: nat :: k < 5 && FirstWithout(f, k) && FieldAt(f, k).Panic?
  {
    hide FieldAt;
    forall k: nat | k < 5 && FirstWithout(f, k) ensures Parse(f) == NoExpr(FieldAt(f, k)) {
      assert k == 0 || k == 1 || k == 2 || k == 3 || k == 4;
    }
    if Parse(f).Panics? {
      var k: nat :=
        if !FieldAt(f, 0).Bits? then 0
        else if !FieldAt(f, 1).Bits? then 1
        else if !FieldAt(f, 2).Bits? then 2
        else if !FieldAt(f, 3).Bits? then 3 else 4;
      assert FirstWithout(f, k);
    }
  }

  // ---- What expressions mean ----

  /** Every expression read names an hour and a minute of it. */
  lemma ParsedHasTime(f: seq<string>)
    requires |f| == 5 && Parse(f).Expr?
    ensures SomeTime(Parse(f).c)
  {
    hide FieldOf;
    var mi := FieldNotEmpty(f[0], MINUTES);
    var h := FieldNotEmpty(f[1], HOURS);
  }

  /** So, of the expressions that can be read, the search misses only those that
      match no day, and leap days. */
  lemma ParsedAndMissed(f: seq<string>, after: int)
    requires |f| == 5 && Parse(f).Expr?
    ensures var c := Parse(f).c;
            Scan(c, NextMinute(after), NextMinute(after) + MAX_LOOKAHEAD).None? <==>
            NoDayFits(c) || (OnlyLeapDays(c) && !LeapDayInWindow(c, after))
  {
    hide Parse, Scan, NextMinute;
    ParsedHasTime(f);
    WhoIsMissed(Parse(f).c, after);
  }

  /** A field that starts with a star does not count as restricting days, even
      when it goes on with a step or a list: if both do, every day of the month
      named runs, whatever they say. */
  lemma StarredFieldsIgnored(f: seq<string>, x: int)
    requires |f| == 5 && Parse(f).Expr? && Starred(f[2]) && Starred(f[4])
    ensures Matches(Parse(f).c, x) <==>
            Listed(Split(f[3], ','), YEAR, Calendar.Month(Calendar.DayNo(x))) &&
            Listed(Split(f[1], ','), HOURS, Calendar.HourOf(x)) &&
            Listed(Split(f[0], ','), MINUTES, Calendar.MinuteOf(x))
  {
    hide FieldOf, Listed, Calendar.Month, Calendar.DayNo, Calendar.HourOf, Calendar.MinuteOf;
    FieldMeans(Split(f[3], ','), YEAR);
    FieldMeans(Split(f[1], ','), HOURS);
    FieldMeans(Split(f[0], ','), MINUTES);
  }

  /** Otherwise a day runs if it is one the restricted fields say: either of
      them if both are restricted. */
  lemma RestrictedFields(f: seq<string>, x: int)
    requires |f| == 5 && Parse(f).Expr? && !(Starred(f[2]) && Starred(f[4]))
    ensures var n := Calendar.DayNo(x);
            var dom := Listed(Split(f[2], ','), DAYS, Calendar.Day(n));
            var dow := Listed(Split(f[4], ','), WEEK, Calendar.Weekday(n)) ||
                       (Calendar.Weekday(n) == 0 && Listed(Split(f[4], ','), WEEK, 7));
            Matches(Parse(f).c, x) <==>
            (if Starred(f[2]) then dow else if Starred(f[4]) then dom else dom || dow) &&
            Listed(Split(f[3], ','), YEAR, Calendar.Month(n)) &&
            Listed(Split(f[1], ','), HOURS, Calendar.HourOf(x)) &&
            Listed(Split(f[0], ','), MINUTES, Calendar.MinuteOf(x))
  {
    hide FieldOf, Listed, Calendar.Month, Calendar.DayNo, Calendar.HourOf, Calendar.MinuteOf, Calendar.Day,
      Calendar.Weekday;
    forall k | 0 <= k < 5 ensures forall i :: i in FieldAt(f, k).bits <==> Listed(Split(f[k], ','), BoundsOf(k), i) {
      FieldMeans(Split(f[k], ','), BoundsOf(k));
    }
  }

  // ---- An expression with two steps ----

  // "0 0 */2 * */2"
  const STEPPED := ["0", "0", "*/2", "*", "*/2"]

  lemma OnePart(text: string, sep: char)
    requires forall i :: 0 <= i < |text| ==> text[i] != sep
    ensures Split(text, sep) == [text] && Cut(text, sep) == (text, None)
  {
    if text != [] {
      assert text == [text[0]] + text[1..];
      OnePart(text[1..], sep);
    }
  }

  lemma FieldOfOne(text: string, d: Bounds, p: Part)
    requires Valid(d) && (forall i :: 0 <= i < |text| ==> text[i] != ',') && ReadPart(text, d) == Some(p) && !Wraps(p)
    requires p.step > 0
    ensures FieldOf(Split(text, ','), d) == Bits(Values(p)) && Split(text, ',') == [text]
  {
    OnePart(text, ',');
    assert [text][..0] == [] && {} + Values(p) == Values(p);
  }

  lemma ReadZero(d: Bounds)
    requires Valid(d) && d.lo == 0 && d.names == NO_NAMES
    ensures ReadPart("0", d) == Some(Part(0, 0, 1))
  {
    OnePart("0", '/');
    assert "0"[..0] == "" && Digits("0") == Some(0);
  }

  lemma ReadStar(d: Bounds)
    requires Valid(d)
    ensures ReadPart("*", d) == Some(Part(d.lo, d.hi, 1))
  {
    OnePart("*", '/');
  }

  lemma ReadEveryOther(d: Bounds)
    requires Valid(d)
    ensures ReadPart("*/2", d) == Some(Part(d.lo, d.hi, 2))
  {
    assert "*/2"[1..] == "/2" && "/2"[1..] == "2" && Cut("/2", '/') == ("", Some("2"));
    assert "2"[..0] == "" && Digits("2") == Some(2);
  }

  lemma SteppedParses()
    ensures Parse(STEPPED).Expr? && Split("*/2", ',') == ["*/2"]
    ensures FieldAt(STEPPED, 0) == Bits(Values(Part(0, 0, 1))) && FieldAt(STEPPED, 1) == Bits(Values(Part(0, 0, 1)))
    ensures FieldAt(STEPPED, 3) == Bits(Values(Part(1, 12, 1)))
  {
    hide ReadPart, FieldOf, Split, Values;
    ReadZero(MINUTES);
    ReadZero(HOURS);
    ReadEveryOther(DAYS);
    ReadStar(YEAR);
    ReadEveryOther(WEEK);
    FieldOfOne("0", MINUTES, Part(0, 0, 1));
    FieldOfOne("0", HOURS, Part(0, 0, 1));
    FieldOfOne("*/2", DAYS, Part(1, 31, 2));
    FieldOfOne("*", YEAR, Part(1, 12, 1));
    FieldOfOne("*/2", WEEK, Part(0, 7, 2));
  }

  lemma FridayTheSecond()
    ensures var n := Calendar.DateNo(1970, 1, 2);
            Calendar.Month(n) == 1 && Calendar.Day(n) == 2 && Calendar.Weekday(n) == 5
  {
    hide Calendar.Year, Calendar.Month, Calendar.Day, Calendar.DateNo;
    JanuaryLong(1970);
    Calendar.DateReadsBack(1970, 1, 2);
    Calendar.Thursdays(0);
    NextDate(1970, 1, 1);
  }

  lemma JanuaryLong(y: int)
    ensures Calendar.MonthStart(y, 2) == Calendar.MonthStart(y, 1) + 31
  {
  }

  lemma NextDate(y: int, m: int, d: int)
    ensures Calendar.DateNo(y, m, d + 1) == Calendar.DateNo(y, m, d) + 1
  {
  }

  lemma NotEveryOther(d: Bounds, i: int)
    requires Valid(d) && (i - d.lo) % 2 != 0
    ensures !Listed(["*/2"], d, i)
  {
    ReadEveryOther(d);
  }

  /** It runs on Friday 2 January 1970, although 2 is not one of its days of the
      month nor Friday one of its days of the week. */
  lemma SteppedRunsAnyway()
    ensures var n := Calendar.DateNo(1970, 1, 2);
            && Parse(STEPPED).Expr? && Matches(Parse(STEPPED).c, n * Calendar.DAY)
            && !Listed(Split(STEPPED[2], ','), DAYS, Calendar.Day(n))
            && !Listed(Split(STEPPED[4], ','), WEEK, Calendar.Weekday(n))
  {
    hide FieldOf, Split, Listed, Calendar.DateNo, Calendar.Month, Calendar.Day, Calendar.DayNo, Calendar.HourOf,
      Calendar.MinuteOf, Calendar.Weekday;
    var n := Calendar.DateNo(1970, 1, 2);
    SteppedParses();
    FridayTheSecond();
    MidnightParts(n);
    NotEveryOther(DAYS, 2);
    NotEveryOther(WEEK, 5);
    assert In(Part(0, 0, 1), 0) && In(Part(1, 12, 1), 1);
  }

  // ---- An expression that panics ----

  const LARGEST := "9223372036854775807"

  // "0 0 */9223372036854775807 * *"
  const WRAPPING := ["0", "0", "*/" + LARGEST, "*", "*"]

  lemma NextDigit(k: nat, v: nat)
    requires k < |LARGEST| && '0' <= LARGEST[k] <= '9' && Digits(LARGEST[..k]) == Some(v)
    ensures Digits(LARGEST[..k + 1]) == Some(10 * v + (LARGEST[k] as int - '0' as int))
  {
    assert LARGEST[..k + 1][..k] == LARGEST[..k];
  }

  lemma NoDigits()
    ensures Digits(LARGEST[..0]) == Some(0)
  {
  }

  lemma FirstDigits()
    ensures Digits(LARGEST[..7]) == Some(9223372)
  {
    hide Digits;
    assert Digits(LARGEST[..0]) == Some(0) by { NoDigits(); }
    NextDigit(0, 0);
    NextDigit(1, 9);
    NextDigit(2, 92);
    NextDigit(3, 922);
    NextDigit(4, 9223);
    NextDigit(5, 92233);
    NextDigit(6, 922337);
  }

  lemma MoreDigits()
    ensures Digits(LARGEST[..13]) == Some(9223372036854)
  {
    hide Digits;
    FirstDigits();
    NextDigit(7, 9223372);
    NextDigit(8, 92233720);
    NextDigit(9, 922337203);
    NextDigit(10, 9223372036);
    NextDigit(11, 92233720368);
    NextDigit(12, 922337203685);
  }

  lemma LargestDigits()
    ensures Digits(LARGEST) == Some(MAX_INT64)
  {
    hide Digits;
    MoreDigits();
    NextDigit(13, 9223372036854);
    NextDigit(14, 92233720368547);
    NextDigit(15, 922337203685477);
    NextDigit(16, 9223372036854775);
    NextDigit(17, 92233720368547758);
    NextDigit(18, 922337203685477580);
    assert LARGEST[..19] == LARGEST;
  }

  lemma StepCut(text: string)
    ensures Cut("*/" + text, '/') == ("*", Some(text))
  {
    var rest := "/" + text;
    assert ("*/" + text)[1..] == rest && rest[1..] == text && Cut(rest, '/') == ("", Some(text));
    assert ["*/"[0]] + "" == "*";
  }

  lemma ReadLargestStep(d: Bounds)
    requires Valid(d)
    ensures ReadPart("*/" + LARGEST, d) == Some(Part(d.lo, d.hi, MAX_INT64))
  {
    LargestDigits();
    StepCut(LARGEST);
    hide Cut, Digits;
    assert Atoi(LARGEST) == Some(MAX_INT64);
  }

  /** Every field of it is made of digits, stars and slashes, and its step is an
      int64, so it gets as far as the loop over the days of the month. */
  lemma LargestStepPanics()
    ensures Parse(WRAPPING).Panics?
  {
    hide ReadPart, Split, Values;
    ReadZero(MINUTES);
    ReadZero(HOURS);
    FieldOfOne("0", MINUTES, Part(0, 0, 1));
    FieldOfOne("0", HOURS, Part(0, 0, 1));
    ReadLargestStep(DAYS);
    var text := "*/" + LARGEST;
    OnePart(text, ',');
    assert [text][..0] == [] && [text][0] == text;
    assert FieldOf([text], DAYS).Panic?;
  }
}

/** The `D/M/Y` date conversion of the by-date statement query, and the
    query itself. */
module Dates {
  import opened Results
  import opened Statements

  /** Glues fields back together with `sep` between them (`Array.join`). */
  function Join(parts: seq<string>, sep: char): (s: string)
    requires |parts| >= 1
    decreases |parts|
  {
    if |parts| == 1 then parts[0] else parts[0] + [sep] + Join(parts[1..], sep)
  }

  /** `String.split` on a one-character separator: the pieces between the
      separators, always at least one, empty pieces included. */
  function Split(s: string, sep: char): (parts: seq<string>)
    ensures |parts| >= 1
    ensures forall i :: 0 <= i < |parts| ==> sep !in parts[i]
    ensures Join(parts, sep) == s
    decreases |s|
  {
    if s == [] then [""]
    else
      var rest := Split(s[1..], sep);
      if s[0] == sep then [""] + rest
      else
        var parts := [[s[0]] + rest[0]] + rest[1..];
        assert parts[1..] == rest[1..];
        parts
  }

  /** Splitting a string that starts with a separator-free piece `a`: `a`
      becomes the front of the first field. */
  lemma {:induction false} SplitPrefix(a: string, rest: string, sep: char)
    requires sep !in a
    ensures Split(a + rest, sep) == [a + Split(rest, sep)[0]] + Split(rest, sep)[1..]
    decreases |a|
  {
    var r := Split(rest, sep);
    if a != [] {
      assert (a + rest)[0] == a[0];
      assert (a + rest)[1..] == a[1..] + rest;
      SplitPrefix(a[1..], rest, sep);
      assert [a[0]] + (a[1..] + r[0]) == a + r[0];
    } else {
      assert a + rest == rest;
      assert a + r[0] == r[0];
      assert [r[0]] + r[1..] == r;
    }
  }

  /** A separator-free field followed by a separator splits off as one field. */
  lemma SplitField(a: string, rest: string, sep: char)
    requires sep !in a
    ensures Split(a + [sep] + rest, sep) == [a] + Split(rest, sep)
  {
    assert a + [sep] + rest == a + ([sep] + rest);
    SplitPrefix(a, [sep] + rest, sep);
    assert ([sep] + rest)[0] == sep;
    assert ([sep] + rest)[1..] == rest;
    assert a + "" == a;
  }

  /** A string without separators is a single field. */
  lemma SplitWhole(a: string, sep: char)
    requires sep !in a
    ensures Split(a, sep) == [a]
  {
    SplitPrefix(a, [], sep);
    assert a + [] == a;
  }

  /** Split undoes Join on separator-free fields, so the two are inverse. */
  lemma {:induction false} SplitJoin(parts: seq<string>, sep: char)
    requires |parts| >= 1
    requires forall i :: 0 <= i < |parts| ==> sep !in parts[i]
    ensures Split(Join(parts, sep), sep) == parts
    decreases |parts|
  {
    if |parts| == 1 {
      SplitWhole(parts[0], sep);
    } else {
      SplitJoin(parts[1..], sep);
      SplitField(parts[0], Join(parts[1..], sep), sep);
      assert [parts[0]] + parts[1..] == parts;
    }
  }

  /** The field at `i`, or the text a template literal makes of `undefined`
      when the split produced fewer fields. */
  function FieldOrUndefined(fields: seq<string>, i: nat): (field: string) {
    if i < |fields| then fields[i] else "undefined"
  }

  /** `convertDate`: reads `D/M/Y` and writes `M/D/Y 00:00`. Whenever the
      input has a day and a month field, they are the first two fields of
      the result in swapped order; the result always ends at midnight. */
  function ConvertDate(date: string): (r: string)
    ensures |r| >= 6 && r[|r| - 6..] == " 00:00"
    ensures var fields := Split(date, '/');
              |fields| >= 2 ==> |Split(r, '/')| >= 2 && Split(r, '/')[..2] == [fields[1], fields[0]]
  {
    var fields := Split(date, '/');
    var month, day, year := FieldOrUndefined(fields, 1), FieldOrUndefined(fields, 0), FieldOrUndefined(fields, 2);
    var r := month + "/" + day + "/" + year + " 00:00";
    if |fields| >= 2 then
      assert r == month + ['/'] + (day + ['/'] + (year + " 00:00"));
      SplitField(month, day + ['/'] + (year + " 00:00"), '/');
      SplitField(day, year + " 00:00", '/');
      r
    else
      r
  }

  /** The day and the month change places, the first field after them is
      kept as the year, anything after the year is dropped and midnight is
      appended. */
  lemma ConvertDateSwapsDayMonth(d: string, m: string, rest: string)
    requires '/' !in d && '/' !in m
    ensures ConvertDate(d + "/" + m + "/" + rest) == m + "/" + d + "/" + Split(rest, '/')[0] + " 00:00"
  {
    assert d + "/" + m + "/" + rest == d + ['/'] + (m + ['/'] + rest);
    SplitField(d, m + ['/'] + rest, '/');
    SplitField(m, rest, '/');
  }

  /** The plain `D/M/Y` case. */
  lemma ConvertDateDayMonthYear(d: string, m: string, y: string)
    requires '/' !in d && '/' !in m && '/' !in y
    ensures ConvertDate(d + "/" + m + "/" + y) == m + "/" + d + "/" + y + " 00:00"
  {
    ConvertDateSwapsDayMonth(d, m, y);
    SplitWhole(y, '/');
  }

  /** A date with no separator at all comes out with `undefined` as its
      month and year around it. */
  lemma ConvertDateWithoutSeparator(date: string)
    requires '/' !in date
    ensures ConvertDate(date) == "undefined/" + date + "/undefined 00:00"
  {
    SplitWhole(date, '/');
  }

  /** The `/statement/date` query. `parseDate` stands for `new Date(...)`
      read back as a calendar day; `None` is an invalid date, whose
      `toDateString()` equals that of no recorded timestamp, so nothing is
      kept. */
  function StatementByDate(statement: seq<Transaction>, date: string,
                           parseDate: string -> Option<CalendarDay>): (r: seq<Transaction>)
    ensures |r| <= |statement|
    ensures IsSubsequence(r, statement)
    ensures parseDate(ConvertDate(date)).None? ==> r == []
    ensures parseDate(ConvertDate(date)).Some? ==>
              forall t :: t in r <==> t in statement && t.createdAt.Day() == parseDate(ConvertDate(date)).value
    ensures parseDate(ConvertDate(date)).Some? ==>
              forall u :: multiset(r)[u] ==
                if u.createdAt.Day() == parseDate(ConvertDate(date)).value then multiset(statement)[u] else 0
    ensures parseDate(ConvertDate(date)).Some? ==> r == FilterByDay(statement, parseDate(ConvertDate(date)).value)
  {
    match parseDate(ConvertDate(date))
    case None => EmptyIsSubsequence(statement); []
    case Some(day) => FilterByDayCounts(statement, day); FilterByDay(statement, day)
  }
}

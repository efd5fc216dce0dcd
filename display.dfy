/**
 * The hover text of a location record: "M/D/YYYY H:M", each field the plain
 * decimal text of its integer, with no zero padding and no seconds.
 */
module Display {
  import opened Wrappers
  import opened Decimal
  import opened Calendar

  /**
   * The display text of the calendar fields t: month/day/year hour:minute,
   * each the plain decimal text of its field. The text determines exactly
   * the fields it shows: ParseTimestampString reads them back.
   */
  function TimestampString(t: DateTime): (s: string)
    ensures ParseTimestampString(s) == Some(Shown(t))
  {
    var mo, d, y, h, mi := IntToString(t.month), IntToString(t.day), IntToString(t.year),
                           IntToString(t.hour), IntToString(t.minute);
    NoSeparators(t.month);
    NoSeparators(t.day);
    NoSeparators(t.year);
    NoSeparators(t.hour);
    var tail3 := h + ":" + mi;
    var tail2 := y + " " + tail3;
    var tail1 := d + "/" + tail2;
    SplitAtJoin(mo, '/', tail1);
    SplitAtJoin(d, '/', tail2);
    SplitAtJoin(y, ' ', tail3);
    SplitAtJoin(h, ':', mi);
    IntToStringRoundTrip(t.month);
    IntToStringRoundTrip(t.day);
    IntToStringRoundTrip(t.year);
    IntToStringRoundTrip(t.hour);
    IntToStringRoundTrip(t.minute);
    mo + "/" + tail1
  }

  /** The fields a display text shows, in the order it shows them. */
  datatype ShownFields = ShownFields(month: int, day: int, year: int, hour: int, minute: int)

  function Shown(t: DateTime): ShownFields {
    ShownFields(t.month, t.day, t.year, t.hour, t.minute)
  }

  /** The text before and after the first occurrence of sep in s. */
  function SplitAt(s: string, sep: char): (r: Option<(string, string)>)
    ensures r.Some? ==> s == r.value.0 + [sep] + r.value.1 && sep !in r.value.0
    ensures r.None? ==> sep !in s
  {
    if s == [] then None
    else if s[0] == sep then Some(([], s[1..]))
    else
      match SplitAt(s[1..], sep)
      case Some(parts) => Some(([s[0]] + parts.0, parts.1))
      case None => None
  }

  lemma {:induction false} SplitAtJoin(a: string, sep: char, b: string)
    requires sep !in a
    ensures SplitAt(a + [sep] + b, sep) == Some((a, b))
  {
    if a != [] {
      var s := a + [sep] + b;
      assert s[0] == a[0] && a[0] != sep;
      assert s[1..] == a[1..] + [sep] + b;
      SplitAtJoin(a[1..], sep, b);
      assert [a[0]] + a[1..] == a;
    }
  }

  /** Reads the fields back out of a display text. */
  function ParseTimestampString(s: string): Option<ShownFields> {
    var monthRest :- SplitAt(s, '/');
    var dayRest :- SplitAt(monthRest.1, '/');
    var yearRest :- SplitAt(dayRest.1, ' ');
    var hourMinute :- SplitAt(yearRest.1, ':');
    var month :- ParseInt(monthRest.0);
    var day :- ParseInt(dayRest.0);
    var year :- ParseInt(yearRest.0);
    var hour :- ParseInt(hourMinute.0);
    var minute :- ParseInt(hourMinute.1);
    Some(ShownFields(month, day, year, hour, minute))
  }

  lemma NoSeparators(i: int)
    ensures '/' !in IntToString(i) && ' ' !in IntToString(i) && ':' !in IntToString(i)
  {
    var s := IntToString(i);
    forall k | 0 <= k < |s| ensures s[k] != '/' && s[k] != ' ' && s[k] != ':' {
      assert IsDigit(s[k]) || s[k] == '-';
    }
  }

  /** Two timestamps show the same text exactly when they agree on every shown field. */
  lemma TimestampStringSameText(t: DateTime, u: DateTime)
    ensures TimestampString(t) == TimestampString(u) <==> Shown(t) == Shown(u)
  {
  }
}

/** Archive names and their order (backend/app/core/backup.py:45-46, 369). */
module ArchiveNames {
  import opened Text

  /** Python's `<` on strings. */
  predicate Less(a: string, b: string) {
    b != "" && (a == "" || a[0] < b[0] || (a[0] == b[0] && Less(a[1..], b[1..])))
  }

  lemma {:induction false} LessOrder(a: string, b: string)
    ensures !Less(a, a)
    ensures Less(a, b) ==> !Less(b, a)
    ensures a != b ==> Less(a, b) || Less(b, a)
  {
    if a != "" {
      LessOrder(a[1..], if b == "" then "" else b[1..]);
      if b != "" && a[0] == b[0] {
        assert a == [a[0]] + a[1..] && b == [b[0]] + b[1..];
      }
    }
  }

  lemma {:induction false} LessChain(a: string, b: string, c: string)
    requires Less(a, b) && Less(b, c)
    ensures Less(a, c)
  {
    if a != "" && a[0] == b[0] == c[0] {
      LessChain(a[1..], b[1..], c[1..]);
    }
  }

  lemma {:induction false} LessConcat(a: string, b: string, x: string, y: string)
    requires |a| == |b|
    ensures Less(a + x, b + y) <==> Less(a, b) || (a == b && Less(x, y))
  {
    if a == "" {
      assert a + x == x && b + y == y;
    } else {
      assert (a + x)[1..] == a[1..] + x && (b + y)[1..] == b[1..] + y;
      LessConcat(a[1..], b[1..], x, y);
      assert a == [a[0]] + a[1..] && b == [b[0]] + b[1..];
      LessOrder(a, b);
    }
  }

  // ---- the stamp --------------------------------------------------------------------------

  function Pow10(w: nat): nat { if w == 0 then 1 else 10 * Pow10(w - 1) }

  /** A number in a field of fixed width. */
  function Pad(n: nat, w: nat): (s: string)
    ensures |s| == w
  {
    if w == 0 then "" else Pad(n / 10, w - 1) + [Digit(n % 10)]
  }

  lemma {:induction false} PadOrder(m: nat, n: nat, w: nat)
    requires m < Pow10(w) && n < Pow10(w)
    ensures Less(Pad(m, w), Pad(n, w)) <==> m < n
    ensures Pad(m, w) == Pad(n, w) <==> m == n
  {
    if w > 0 {
      PadOrder(m / 10, n / 10, w - 1);
      var a, b := [Digit(m % 10)], [Digit(n % 10)];
      LessConcat(Pad(m / 10, w - 1), Pad(n / 10, w - 1), a, b);
      assert Less(a, b) <==> m % 10 < n % 10;
      assert a == b <==> m % 10 == n % 10;
      assert Pad(m, w)[..w - 1] == Pad(m / 10, w - 1) && Pad(n, w)[..w - 1] == Pad(n / 10, w - 1);
      assert Pad(m, w)[w - 1] == a[0] && Pad(n, w)[w - 1] == b[0];
    }
  }

  /** A second of UTC time. */
  datatype Moment = Moment(year: nat, month: nat, day: nat, hour: nat, minute: nat, second: nat)

  predicate Written(m: Moment) {
    1000 <= m.year <= 9999 && 1 <= m.month <= 12 && 1 <= m.day <= 31 && m.hour <= 23 && m.minute <= 59 && m.second <= 59
  }

  predicate Earlier(a: Moment, b: Moment) {
    || a.year < b.year
    || (a.year == b.year && a.month < b.month)
    || (a.year == b.year && a.month == b.month && a.day < b.day)
    || (a.year == b.year && a.month == b.month && a.day == b.day && a.hour < b.hour)
    || (a.year == b.year && a.month == b.month && a.day == b.day && a.hour == b.hour && a.minute < b.minute)
    || (a.year == b.year && a.month == b.month && a.day == b.day && a.hour == b.hour && a.minute == b.minute
        && a.second < b.second)
  }

  function Clock(m: Moment): string { Pad(m.hour, 2) + (Pad(m.minute, 2) + (Pad(m.second, 2) + "Z")) }

  /** `_utcstamp`. */
  function Stamp(m: Moment): string { Pad(m.year, 4) + (Pad(m.month, 2) + (Pad(m.day, 2) + ("T" + Clock(m)))) }

  function ArchiveName(m: Moment): string { "cerebrumdev-backup-" + (Stamp(m) + ".tar.gz") }

  lemma {:induction false} FieldOrder(m: nat, n: nat, w: nat, x: string, y: string)
    requires m < Pow10(w) && n < Pow10(w)
    ensures Less(Pad(m, w) + x, Pad(n, w) + y) <==> m < n || (m == n && Less(x, y))
  {
    PadOrder(m, n, w);
    LessConcat(Pad(m, w), Pad(n, w), x, y);
  }

  lemma Widths()
    ensures Pow10(2) == 100 && Pow10(4) == 10000
  {
    assert Pow10(1) == 10;
    assert Pow10(3) == 1000;
  }

  lemma ClockOrder(a: Moment, b: Moment)
    requires Written(a) && Written(b)
    ensures Less(Clock(a), Clock(b))
            <==> a.hour < b.hour || (a.hour == b.hour && a.minute < b.minute)
                 || (a.hour == b.hour && a.minute == b.minute && a.second < b.second)
  {
    Widths();
    FieldOrder(a.second, b.second, 2, "Z", "Z");
    LessOrder("Z", "Z");
    FieldOrder(a.minute, b.minute, 2, Pad(a.second, 2) + "Z", Pad(b.second, 2) + "Z");
    FieldOrder(a.hour, b.hour, 2, Pad(a.minute, 2) + (Pad(a.second, 2) + "Z"),
        Pad(b.minute, 2) + (Pad(b.second, 2) + "Z"));
  }

  lemma StampOrder(a: Moment, b: Moment)
    requires Written(a) && Written(b)
    ensures Less(Stamp(a), Stamp(b)) <==> Earlier(a, b)
  {
    Widths();
    ClockOrder(a, b);
    LessOrder("T", "T");
    LessConcat("T", "T", Clock(a), Clock(b));
    FieldOrder(a.day, b.day, 2, "T" + Clock(a), "T" + Clock(b));
    FieldOrder(a.month, b.month, 2, Pad(a.day, 2) + ("T" + Clock(a)), Pad(b.day, 2) + ("T" + Clock(b)));
    FieldOrder(a.year, b.year, 4, Pad(a.month, 2) + (Pad(a.day, 2) + ("T" + Clock(a))),
               Pad(b.month, 2) + (Pad(b.day, 2) + ("T" + Clock(b))));
  }

  /** Archives sort by name just as they were taken. */
  lemma NamesOrderAsTime(a: Moment, b: Moment)
    requires Written(a) && Written(b)
    ensures Less(ArchiveName(a), ArchiveName(b)) <==> Earlier(a, b)
  {
    StampOrder(a, b);
    var pre, suf := "cerebrumdev-backup-", ".tar.gz";
    LessOrder(pre, pre);
    LessOrder(suf, suf);
    LessConcat(Stamp(a), Stamp(b), suf, suf);
    LessConcat(pre, pre, Stamp(a) + suf, Stamp(b) + suf);
  }

  lemma {:induction false} PadTells(n: nat, w: nat)
    requires n < Pow10(w)
    ensures ValueOf(Pad(n, w)) == n
  {
    if w > 0 {
      PadTells(n / 10, w - 1);
      assert Pad(n, w)[..w - 1] == Pad(n / 10, w - 1);
    }
  }

  /** A name tells the second it was taken: the year in four digits, then the month, the day, the hour,
      the minute and the second in two each. */
  lemma NameTellsTime(m: Moment) returns (date: seq<string>, clock: seq<string>)
    requires Written(m)
    ensures |date| == 3 && |clock| == 3 && |date[0]| == 4 && |date[1]| == |date[2]| == 2
    ensures |clock[0]| == |clock[1]| == |clock[2]| == 2
    ensures var stamp := date[0] + (date[1] + (date[2] + ("T" + (clock[0] + (clock[1] + (clock[2] + "Z"))))));
            ArchiveName(m) == "cerebrumdev-backup-" + (stamp + ".tar.gz")
    ensures ValueOf(date[0]) == m.year && ValueOf(date[1]) == m.month && ValueOf(date[2]) == m.day
    ensures ValueOf(clock[0]) == m.hour && ValueOf(clock[1]) == m.minute && ValueOf(clock[2]) == m.second
  {
    Widths();
    date := [Pad(m.year, 4), Pad(m.month, 2), Pad(m.day, 2)];
    clock := [Pad(m.hour, 2), Pad(m.minute, 2), Pad(m.second, 2)];
    PadTells(m.year, 4);
    PadTells(m.month, 2);
    PadTells(m.day, 2);
    PadTells(m.hour, 2);
    PadTells(m.minute, 2);
    PadTells(m.second, 2);
  }
}

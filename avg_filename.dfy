/** The path of a 16-bit average file: the directory e:/YYYYMMDD/avg/ from
    the local date, then YYYYMMDD_hhmmss_kcor.bin from the UTC time, each
    field printed by sprintf's %4d or %02d from a C struct tm. */
module AvgFileName {
  import opened Common

  /** The fields of a C struct tm that the names use: years since 1900,
      months since January, day of month, hours, minutes, seconds. */
  datatype Tm = Tm(year: int, mon: int, mday: int, hour: int, min: int, sec: int)

  /** A time whose fields lie in the ranges gmtime and localtime produce,
      in a year with four digits. */
  predicate ValidTm(t: Tm) {
    1000 <= t.year + 1900 <= 9999 && 0 <= t.mon <= 11 && 1 <= t.mday <= 31 &&
    0 <= t.hour <= 23 && 0 <= t.min <= 59 && 0 <= t.sec <= 60
  }

  /** s padded on the left with c to at least w characters. */
  function PadLeft(s: seq<char>, w: nat, c: char): (r: seq<char>)
    ensures |r| == if |s| < w then w else |s|
    decreases w - |s|
  {
    if |s| < w then PadLeft([c] + s, w, c) else s
  }

  /** sprintf %wd: right-aligned in w characters, padded with spaces. */
  function FormatSpace(n: int, w: nat): (r: seq<char>)
    ensures |r| >= w
  {
    PadLeft(if n < 0 then ['-'] + Decimal(-n) else Decimal(n), w, ' ')
  }

  /** sprintf %0wd: zeros go between the sign and the digits. */
  function FormatZero(n: int, w: nat): (r: seq<char>)
    ensures |r| >= w
  {
    if n < 0 then ['-'] + PadLeft(Decimal(-n), if w > 0 then w - 1 else 0, '0') else PadLeft(Decimal(n), w, '0')
  }

  /** %02d of a value below 100 is its two digits. */
  lemma TwoDigits(n: int)
    requires 0 <= n < 100
    ensures FormatZero(n, 2) == Pair(n)
  {
    var d := Decimal(n);
    if n >= 10 {
      assert d == Decimal(n / 10) + [DigitChar(n % 10)];
      assert Decimal(n / 10) == [DigitChar(n / 10)];
    } else {
      assert d == [DigitChar(n)];
      assert PadLeft(d, 2, '0') == PadLeft(['0'] + d, 2, '0') == ['0'] + d;
      assert n / 10 == 0 && n % 10 == n;
    }
  }

  /** %4d of a value with four digits is those digits: its hundreds as two
      digits, then its remainder as two digits. */
  lemma FourDigits(n: int)
    requires 1000 <= n <= 9999
    ensures FormatSpace(n, 4) == Pair(n / 100) + Pair(n % 100)
  {
    var h, l := n / 100, n % 100;
    assert n / 10 == h * 10 + l / 10 && n % 10 == l % 10;
    assert (n / 10) / 10 == h && (n / 10) % 10 == l / 10;
    assert Decimal(h) == [DigitChar(h / 10), DigitChar(h % 10)];
    assert Decimal(n / 10) == Decimal(h) + [DigitChar(l / 10)];
    assert Decimal(n) == Decimal(n / 10) + [DigitChar(l % 10)];
  }

  /** YYYYMMDD, the date part of both names. */
  function DateStamp(t: Tm): seq<char> {
    FormatSpace(t.year + 1900, 4) + FormatZero(t.mon + 1, 2) + FormatZero(t.mday, 2)
  }

  /** The directory, from the local time: e:/YYYYMMDD, then /avg/ appended. */
  function Directory(local: Tm): (r: seq<char>)
    ensures |r| >= 16 && r[..3] == "e:/" && r[|r| - 5..] == "/avg/"
  {
    "e:/" + DateStamp(local) + "/avg/"
  }

  /** hhmmss, the time part of the file name. */
  function TimeStamp(t: Tm): seq<char> {
    FormatZero(t.hour, 2) + FormatZero(t.min, 2) + FormatZero(t.sec, 2)
  }

  /** The file name, from the UTC time. */
  function FileName(utc: Tm): (r: seq<char>)
    ensures |r| >= 24 && r[|r| - 9..] == "_kcor.bin"
  {
    DateStamp(utc) + "_" + TimeStamp(utc) + "_kcor.bin"
  }

  /** The full path afilenm: the directory followed by the file name. */
  function AvgPath(local: Tm, utc: Tm): (r: seq<char>)
    ensures |r| >= 40 && r[..3] == "e:/" && r[|r| - 9..] == "_kcor.bin"
  {
    Directory(local) + FileName(utc)
  }

  /** The value of the two digits s[k], s[k + 1]. */
  function Two(s: seq<char>, k: nat): nat
    requires k + 2 <= |s| && IsDigit(s[k]) && IsDigit(s[k + 1])
  {
    DigitValue(s[k]) * 10 + DigitValue(s[k + 1])
  }

  predicate DigitsAt(s: seq<char>, from: nat, to: nat)
    requires from <= to <= |s|
  {
    forall i :: from <= i < to ==> IsDigit(s[i])
  }

  /** The 24-character name ends in _kcor.bin from position 15 on. */
  predicate KcorSuffix(s: seq<char>)
    requires |s| == 24
  {
    forall i :: 0 <= i < 9 ==> s[15 + i] == "_kcor.bin"[i]
  }

  /** Reads a file name back: 8 digits, '_', 6 digits, "_kcor.bin". */
  function ParseFileName(s: seq<char>): (r: Option<Tm>)
    ensures r.Some? ==> |s| == 24
  {
    if |s| == 24 && DigitsAt(s, 0, 8) && s[8] == '_' && DigitsAt(s, 9, 15) && KcorSuffix(s) then
      Some(Tm(Two(s, 0) * 100 + Two(s, 2) - 1900, Two(s, 4) - 1, Two(s, 6), Two(s, 9), Two(s, 11), Two(s, 13)))
    else None
  }

  /** The two digits of p < 100. */
  function Pair(p: nat): (r: seq<char>)
    requires p < 100
    ensures |r| == 2 && IsDigit(r[0]) && IsDigit(r[1]) && DigitValue(r[0]) * 10 + DigitValue(r[1]) == p
  {
    [DigitChar(p / 10), DigitChar(p % 10)]
  }

  /** Date and time parts with the right digits read back as the fields
      they hold. */
  lemma ParseParts(date: seq<char>, time: seq<char>)
    requires |date| == 8 && |time| == 6 && DigitsAt(date, 0, 8) && DigitsAt(time, 0, 6)
    ensures |date + "_" + time + "_kcor.bin"| == 24
    ensures ParseFileName(date + "_" + time + "_kcor.bin") ==
      Some(Tm(Two(date, 0) * 100 + Two(date, 2) - 1900, Two(date, 4) - 1, Two(date, 6), Two(time, 0), Two(time, 2), Two(time, 4)))
  {
    var s := date + "_" + time + "_kcor.bin";
    assert forall i :: 0 <= i < 8 ==> s[i] == date[i];
    assert forall i :: 0 <= i < 6 ==> s[9 + i] == time[i];
    assert KcorSuffix(s);
  }

  /** The characters of four two-digit fields laid end to end. */
  lemma PairsAt(a: nat, b: nat, c: nat, d: nat)
    requires a < 100 && b < 100 && c < 100 && d < 100
    ensures var s := Pair(a) + Pair(b) + Pair(c) + Pair(d);
      |s| == 8 && DigitsAt(s, 0, 8) && Two(s, 0) == a && Two(s, 2) == b && Two(s, 4) == c && Two(s, 6) == d
  {
    var s := Pair(a) + Pair(b) + Pair(c) + Pair(d);
    assert s[0] == Pair(a)[0] && s[1] == Pair(a)[1] && s[2] == Pair(b)[0] && s[3] == Pair(b)[1];
    assert s[4] == Pair(c)[0] && s[5] == Pair(c)[1] && s[6] == Pair(d)[0] && s[7] == Pair(d)[1];
  }

  /** The characters of three two-digit fields laid end to end. */
  lemma TriplesAt(a: nat, b: nat, c: nat)
    requires a < 100 && b < 100 && c < 100
    ensures var s := Pair(a) + Pair(b) + Pair(c);
      |s| == 6 && DigitsAt(s, 0, 6) && Two(s, 0) == a && Two(s, 2) == b && Two(s, 4) == c
  {
    var s := Pair(a) + Pair(b) + Pair(c);
    assert s[0] == Pair(a)[0] && s[1] == Pair(a)[1] && s[2] == Pair(b)[0] && s[3] == Pair(b)[1];
    assert s[4] == Pair(c)[0] && s[5] == Pair(c)[1];
  }

  /** The file name of a valid time has 24 characters and reads back as
      that time. */
  lemma FileNameRoundTrip(t: Tm)
    requires ValidTm(t)
    ensures |FileName(t)| == 24
    ensures ParseFileName(FileName(t)) == Some(t)
  {
    DateStampDigits(t);
    TimeDigits(t);
    var date, time := DateStamp(t), TimeStamp(t);
    ParseParts(date, time);
    assert FileName(t) == date + "_" + time + "_kcor.bin";
  }

  /** Two valid times with the same file name are the same time. */
  lemma FileNameInjective(t: Tm, u: Tm)
    requires ValidTm(t) && ValidTm(u) && FileName(t) == FileName(u)
    ensures t == u
  {
    FileNameRoundTrip(t);
    FileNameRoundTrip(u);
  }

  /** The date stamp of a valid time: eight digits reading back as the
      four-digit year, the month counted from 1 and the day. */
  lemma DateStampDigits(t: Tm)
    requires ValidTm(t)
    ensures var d := DateStamp(t);
      |d| == 8 && DigitsAt(d, 0, 8) &&
      Two(d, 0) * 100 + Two(d, 2) == t.year + 1900 && Two(d, 4) == t.mon + 1 && Two(d, 6) == t.mday
  {
    var y := t.year + 1900;
    FourDigits(y);
    TwoDigits(t.mon + 1);
    TwoDigits(t.mday);
    PairsAt(y / 100, y % 100, t.mon + 1, t.mday);
    assert DateStamp(t) == Pair(y / 100) + Pair(y % 100) + Pair(t.mon + 1) + Pair(t.mday);
    assert (y / 100) * 100 + y % 100 == y;
  }

  /** The time stamp of a valid time: six digits reading back as the
      hour, the minute and the second. */
  lemma TimeDigits(t: Tm)
    requires ValidTm(t)
    ensures var d := TimeStamp(t);
      |d| == 6 && DigitsAt(d, 0, 6) && Two(d, 0) == t.hour && Two(d, 2) == t.min && Two(d, 4) == t.sec
  {
    TwoDigits(t.hour);
    TwoDigits(t.min);
    TwoDigits(t.sec);
    TriplesAt(t.hour, t.min, t.sec);
  }

  /** The directory is e:/, the eight-digit local date, then /avg/. */
  lemma DirectoryLayout(local: Tm)
    requires ValidTm(local)
    ensures var d := Directory(local);
      |d| == 16 && d[..3] == "e:/" && d[3..11] == DateStamp(local) && d[11..] == "/avg/"
  {
    DateStampDigits(local);
  }

  /** The full path is the 16-character local-date directory followed by
      the 24-character name that reads back as the UTC time. */
  lemma AvgPathSplit(local: Tm, utc: Tm)
    requires ValidTm(local) && ValidTm(utc)
    ensures var p := AvgPath(local, utc);
      |p| == 40 && p[..16] == Directory(local) && ParseFileName(p[16..]) == Some(utc)
  {
    DirectoryLayout(local);
    FileNameRoundTrip(utc);
    var p := AvgPath(local, utc);
    assert p[16..] == FileName(utc);
  }
}

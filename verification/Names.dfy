/** Names of archived snapshots: `prefix-YYYYMMDD-HHMMSS`. */
module Names {
  import opened Common

  predicate IsDigit(c: char) {
    '0' <= c <= '9'
  }

  predicate AllDigits(s: string) {
    s != [] && forall i | 0 <= i < |s| :: IsDigit(s[i])
  }

  /** The scan both components use. */
  method IsAllDigits(s: string) returns (r: bool)
    ensures r == AllDigits(s)
  {
    var i := 0;
    while i < |s|
      invariant 0 <= i <= |s| && forall k | 0 <= k < i :: IsDigit(s[k])
    {
      if s[i] < '0' || s[i] > '9' { return false; }
      i := i + 1;
    }
    return |s| > 0;
  }

  const SUFFIX_LENGTH := 16

  predicate IsStampSuffix(s: string) {
    && |s| == SUFFIX_LENGTH && s[0] == '-' && s[9] == '-'
    && AllDigits(s[1..9]) && AllDigits(s[10..16])
  }

  /** The group the collector of the agent puts a snapshot in, if any. */
  function ArchivePrefix(name: string): Option<string> {
    var cut := |name| - SUFFIX_LENGTH;
    if cut >= 0 && IsStampSuffix(name[cut..]) then Some(name[..cut]) else None
  }

  /** Which names are archives, character by character: some prefix, a dash, eight digits, a
      dash, six digits, and nothing else. */
  lemma ArchivePrefixExactly(name: string, prefix: string)
    ensures ArchivePrefix(name) == Some(prefix) <==>
              var cut := |prefix|;
              && |name| == cut + 16 && name[..cut] == prefix
              && name[cut] == '-' && (forall i | cut < i < cut + 9 :: '0' <= name[i] <= '9')
              && name[cut + 9] == '-' && (forall i | cut + 9 < i < cut + 16 :: '0' <= name[i] <= '9')
  {
    var cut := |prefix|;
    if |name| == cut + 16 {
      var s := name[cut..];
      assert forall i | cut <= i < cut + 16 :: name[i] == s[i - cut];
      assert forall i | 0 <= i < 16 :: s[i] == name[cut..][i];
      StampSuffixExactly(s);
    }
  }

  lemma StampSuffixExactly(s: string)
    ensures IsStampSuffix(s) <==>
              |s| == 16 && s[0] == '-' && s[9] == '-' && forall i | 1 <= i < 9 || 10 <= i < 16 :: '0' <= s[i] <= '9'
  {
    if |s| == 16 {
      assert forall i | 1 <= i < 9 :: s[1..9][i - 1] == s[i];
      assert forall i | 10 <= i < 16 :: s[10..16][i - 10] == s[i];
    }
  }

  datatype Role = Current | Archived | Auto

  /** The role the API server infers from a snapshot name. */
  method InferSnapshotRole(name: string) returns (r: Role)
    ensures r == Current <==> ArchivePrefix(name).None?
    ensures r == Auto <==> ArchivePrefix(name) == Some("auto")
    ensures r == Current <==>
              (|name| >= 16 ==>
                 var s := name[|name| - 16..];
                 !(s[0] == '-' && s[9] == '-' && forall i | 1 <= i < 9 || 10 <= i < 16 :: '0' <= s[i] <= '9'))
    ensures r == Auto ==> name[..|name| - 16] == "auto"
  {
    if |name| >= 16 { StampSuffixExactly(name[|name| - 16..]); }
    if |name| >= 16 {
      var suffix := name[|name| - 16..];
      if suffix[0] == '-' && suffix[9] == '-' {
        var date := IsAllDigits(suffix[1..9]);
        var time := IsAllDigits(suffix[10..16]);
        if date && time {
          return if name[..|name| - 16] == "auto" then Auto else Archived;
        }
      }
    }
    return Current;
  }

  // ---- the name an overwritten snapshot is archived under ----

  datatype Stamp = Stamp(year: nat, month: nat, day: nat, hour: nat, minute: nat, second: nat) {
    /** The instants whose year has four digits. */
    predicate Valid() {
      year <= 9999 && month <= 99 && day <= 99 && hour <= 99 && minute <= 99 && second <= 99
    }
  }

  /** Decimal digits of n, padded with zeros to a width. */
  function Digits(n: nat, width: nat): (s: string)
    ensures |s| == width && forall i | 0 <= i < |s| :: IsDigit(s[i])
  {
    if width == 0 then [] else Digits(n / 10, width - 1) + ['0' + (n % 10) as char]
  }

  function Power10(width: nat): nat {
    if width == 0 then 1 else 10 * Power10(width - 1)
  }

  lemma {:induction false} DigitsInjective(n: nat, m: nat, width: nat)
    requires n < Power10(width) && m < Power10(width) && Digits(n, width) == Digits(m, width)
    ensures n == m
  {
    if width == 0 {
    } else {
      var a, b := Digits(n, width), Digits(m, width);
      assert a[..width - 1] == Digits(n / 10, width - 1) && b[..width - 1] == Digits(m / 10, width - 1);
      DigitsInjective(n / 10, m / 10, width - 1);
      assert a[width - 1] == b[width - 1];
    }
  }

  function FormatStamp(t: Stamp): (s: string)
    ensures |s| == 15
  {
    Digits(t.year, 4) + Digits(t.month, 2) + Digits(t.day, 2) + "-" +
    Digits(t.hour, 2) + Digits(t.minute, 2) + Digits(t.second, 2)
  }

  function ArchiveName(name: string, t: Stamp): string {
    name + "-" + FormatStamp(t)
  }

  /** The collector recovers exactly the name a snapshot had before it was archived. */
  lemma ArchiveRoundTrip(name: string, t: Stamp)
    ensures ArchivePrefix(ArchiveName(name, t)) == Some(name)
  {
    var full := ArchiveName(name, t);
    var suffix := full[|full| - 16..];
    var date := Digits(t.year, 4) + Digits(t.month, 2) + Digits(t.day, 2);
    var time := Digits(t.hour, 2) + Digits(t.minute, 2) + Digits(t.second, 2);
    assert FormatStamp(t) == date + "-" + time;
    assert suffix == "-" + (date + "-" + time);
    assert suffix[1..9] == date && suffix[10..16] == time;
    assert full[..|full| - 16] == name;
  }

  lemma StampInjective(t: Stamp, u: Stamp)
    requires t.Valid() && u.Valid() && FormatStamp(t) == FormatStamp(u)
    ensures t == u
  {
    var a, b := FormatStamp(t), FormatStamp(u);
    assert Power10(2) == 100 by { assert Power10(1) == 10 by { assert Power10(0) == 1; } }
    assert Power10(4) == 10000 by { assert Power10(3) == 1000; }
    assert a[..4] == Digits(t.year, 4) && b[..4] == Digits(u.year, 4);
    DigitsInjective(t.year, u.year, 4);
    assert a[4..6] == Digits(t.month, 2) && b[4..6] == Digits(u.month, 2);
    DigitsInjective(t.month, u.month, 2);
    assert a[6..8] == Digits(t.day, 2) && b[6..8] == Digits(u.day, 2);
    DigitsInjective(t.day, u.day, 2);
    assert a[9..11] == Digits(t.hour, 2) && b[9..11] == Digits(u.hour, 2);
    DigitsInjective(t.hour, u.hour, 2);
    assert a[11..13] == Digits(t.minute, 2) && b[11..13] == Digits(u.minute, 2);
    DigitsInjective(t.minute, u.minute, 2);
    assert a[13..15] == Digits(t.second, 2) && b[13..15] == Digits(u.second, 2);
    DigitsInjective(t.second, u.second, 2);
  }

  /** Different snapshots, or the same at different seconds, get different archive names. */
  lemma ArchiveNameInjective(name: string, t: Stamp, other: string, u: Stamp)
    requires t.Valid() && u.Valid() && ArchiveName(name, t) == ArchiveName(other, u)
    ensures name == other && t == u
  {
    ArchiveRoundTrip(name, t);
    ArchiveRoundTrip(other, u);
    var a := ArchiveName(name, t);
    assert a[|name| + 1..] == FormatStamp(t) && a[|other| + 1..] == FormatStamp(u);
    StampInjective(t, u);
  }

  // ---- archives of one snapshot sort by time ----

  /** Character order of strings that differ at some position. */
  ghost predicate SortsBefore(a: string, b: string) {
    exists k :: 0 <= k < |a| && k < |b| && a[..k] == b[..k] && a[k] < b[k]
  }

  lemma {:induction false} DigitsOrder(n: nat, m: nat, width: nat) returns (k: nat)
    requires n < m < Power10(width)
    ensures k < width && Digits(n, width)[..k] == Digits(m, width)[..k] && Digits(n, width)[k] < Digits(m, width)[k]
  {
    var a, b := Digits(n, width), Digits(m, width);
    assert a[..width - 1] == Digits(n / 10, width - 1) && b[..width - 1] == Digits(m / 10, width - 1);
    if n / 10 < m / 10 {
      k := DigitsOrder(n / 10, m / 10, width - 1);
      assert a[..k] == a[..width - 1][..k] && b[..k] == b[..width - 1][..k];
    } else {
      k := width - 1;
    }
  }

  /** Two strings that agree up to a number and have different numbers there. */
  lemma FieldOrder(a: string, b: string, at: nat, n: nat, m: nat, width: nat)
    requires at + width <= |a| && at + width <= |b| && a[..at] == b[..at]
    requires a[at..at + width] == Digits(n, width) && b[at..at + width] == Digits(m, width)
    requires n < m < Power10(width)
    ensures SortsBefore(a, b)
  {
    var k := DigitsOrder(n, m, width);
    var p, q := a[at..at + width], b[at..at + width];
    assert a[..at + k] == a[..at] + p[..k] && b[..at + k] == b[..at] + q[..k];
    assert a[at + k] == p[k] && b[at + k] == q[k];
  }

  /** Of two archives of one snapshot the later sorts behind the earlier: the stamp has its
      fields from the year down to the second. */
  lemma LaterSortsBehind(name: string, t: Stamp, u: Stamp)
    requires t.Valid() && u.Valid()
    requires || t.year < u.year
             || (t.year == u.year && t.month < u.month)
             || (t.year == u.year && t.month == u.month && t.day < u.day)
             || (t.year == u.year && t.month == u.month && t.day == u.day && t.hour < u.hour)
             || (t.year == u.year && t.month == u.month && t.day == u.day && t.hour == u.hour && t.minute < u.minute)
             || (t == u.(second := t.second) && t.second < u.second)
    ensures SortsBefore(ArchiveName(name, t), ArchiveName(name, u))
  {
    assert Power10(2) == 100 by { assert Power10(1) == 10 by { assert Power10(0) == 1; } }
    assert Power10(4) == 10000 by { assert Power10(3) == 1000; }
    var a, b, n := ArchiveName(name, t), ArchiveName(name, u), |name| + 1;
    StampFields(name, t);
    StampFields(name, u);
    if t.year < u.year { FieldOrder(a, b, n, t.year, u.year, 4); return; }
    SameFront(a, b, n, n + 4);
    if t.month < u.month { FieldOrder(a, b, n + 4, t.month, u.month, 2); return; }
    SameFront(a, b, n + 4, n + 6);
    if t.day < u.day { FieldOrder(a, b, n + 6, t.day, u.day, 2); return; }
    SameFront(a, b, n + 6, n + 8);
    SameFront(a, b, n + 8, n + 9);
    if t.hour < u.hour { FieldOrder(a, b, n + 9, t.hour, u.hour, 2); return; }
    SameFront(a, b, n + 9, n + 11);
    if t.minute < u.minute { FieldOrder(a, b, n + 11, t.minute, u.minute, 2); return; }
    SameFront(a, b, n + 11, n + 13);
    FieldOrder(a, b, n + 13, t.second, u.second, 2);
  }

  lemma SameFront(a: string, b: string, i: nat, j: nat)
    requires i <= j <= |a| && j <= |b| && a[..i] == b[..i] && a[i..j] == b[i..j]
    ensures a[..j] == b[..j]
  {
    assert a[..j] == a[..i] + a[i..j] && b[..j] == b[..i] + b[i..j];
  }

  /** Where the fields of a stamp are in an archive name. */
  lemma StampFields(name: string, t: Stamp)
    ensures var a, n := ArchiveName(name, t), |name| + 1;
            && |a| == n + 15 && a[..n] == name + "-"
            && a[n..n + 4] == Digits(t.year, 4) && a[n + 4..n + 6] == Digits(t.month, 2)
            && a[n + 6..n + 8] == Digits(t.day, 2) && a[n + 8..n + 9] == "-"
            && a[n + 9..n + 11] == Digits(t.hour, 2) && a[n + 11..n + 13] == Digits(t.minute, 2)
            && a[n + 13..n + 15] == Digits(t.second, 2)
  {
    var a, n := ArchiveName(name, t), |name| + 1;
    var date := Digits(t.year, 4) + Digits(t.month, 2) + Digits(t.day, 2);
    var time := Digits(t.hour, 2) + Digits(t.minute, 2) + Digits(t.second, 2);
    assert FormatStamp(t) == date + "-" + time;
    assert a == (name + "-") + date + "-" + time;
    assert a[n..n + 8] == date && a[n + 9..n + 15] == time;
    assert a[n..n + 4] == date[..4] && a[n + 4..n + 6] == date[4..6] && a[n + 6..n + 8] == date[6..8];
    assert a[n + 9..n + 11] == time[..2] && a[n + 11..n + 13] == time[2..4] && a[n + 13..n + 15] == time[4..6];
  }
}

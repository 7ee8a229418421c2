/** Decimal text of integers: `str(SAVE_INT)` when the counter is written to the
    configuration file and to snapshot file names, `int(cfg.read())` when it is
    read back, and the snapshot path `backups/<n>.owl`. */
module Decimal {
  import opened Wrappers
  import opened Seqs

  predicate IsDigit(c: char) { '0' <= c <= '9' }

  function DigitChar(d: nat): (c: char)
    requires d < 10
    ensures IsDigit(c)
  {
    ('0' as int + d) as char
  }

  function DigitValue(c: char): (d: nat)
    requires IsDigit(c)
    ensures d < 10 && DigitChar(d) == c
  {
    c as int - '0' as int
  }

  /** Decimal digits of a natural number, most significant first, no leading zero. */
  function NatString(n: nat): (s: string)
    ensures |s| >= 1
    ensures forall i :: 0 <= i < |s| ==> IsDigit(s[i])
    ensures |s| > 1 ==> s[0] != '0'
    decreases n
  {
    if n < 10 then [DigitChar(n)] else NatString(n / 10) + [DigitChar(n % 10)]
  }

  /** Python's `str(n)` for an int. */
  function IntString(n: int): (s: string)
    ensures |s| >= 1
  {
    if n < 0 then "-" + NatString(-n) else NatString(n)
  }

  /** Value of a digit string; the empty string has value 0. */
  function DigitsValue(s: string): nat
    requires forall i :: 0 <= i < |s| ==> IsDigit(s[i])
  {
    if s == [] then 0 else DigitsValue(s[..|s| - 1]) * 10 + DigitValue(s[|s| - 1])
  }

  /** Python's `int(text)` restricted to an optional minus sign and decimal digits;
      any other text is refused (Python would raise ValueError). */
  function ParseInt(s: string): Option<int>
  {
    if |s| >= 1 && s[0] == '-' then
      var t := s[1..];
      if |t| >= 1 && forall i :: 0 <= i < |t| ==> IsDigit(t[i]) then Some(-(DigitsValue(t) as int)) else None
    else if |s| >= 1 && forall i :: 0 <= i < |s| ==> IsDigit(s[i]) then Some(DigitsValue(s))
    else None
  }

  lemma {:induction false} NatStringValue(n: nat)
    ensures DigitsValue(NatString(n)) == n
    decreases n
  {
    var s := NatString(n);
    if n >= 10 {
      NatStringValue(n / 10);
      assert s == NatString(n / 10) + [DigitChar(n % 10)];
      assert s[..|s| - 1] == NatString(n / 10);
      assert DigitValue(s[|s| - 1]) == n % 10;
    } else {
      assert DigitValue(s[0]) == n;
    }
  }

  /** Writing the counter as text and reading it back yields the same counter. */
  lemma IntStringRoundTrip(n: int)
    ensures ParseInt(IntString(n)) == Some(n)
  {
    if n < 0 {
      NatStringValue(-n);
      ParseNegative(NatString(-n));
    } else {
      NatStringValue(n);
      ParseDigits(NatString(n));
    }
  }

  lemma ParseNegative(t: string)
    requires |t| >= 1 && forall i :: 0 <= i < |t| ==> IsDigit(t[i])
    ensures ParseInt("-" + t) == Some(-(DigitsValue(t) as int))
  {
    TailOfAppend("-", t);
  }

  lemma ParseDigits(t: string)
    requires |t| >= 1 && forall i :: 0 <= i < |t| ==> IsDigit(t[i])
    ensures ParseInt(t) == Some(DigitsValue(t))
  {
    assert IsDigit(t[0]);
  }

  const BackupDir: string := "backups/"
  const OwlSuffix: string := ".owl"

  /** `str(MAIN_DIR / (str(v) + '.owl'))`: the file holding snapshot version v. */
  function SnapshotPath(v: int): string
  {
    BackupDir + IntString(v) + OwlSuffix
  }

  /** A snapshot path names its version: the version read back from the path
      is the one it was made from, so distinct versions have distinct files. */
  lemma SnapshotPathVersion(v: int)
    ensures SnapshotVersion(SnapshotPath(v)) == Some(v)
  {
    var p := SnapshotPath(v);
    assert p[..|BackupDir|] == BackupDir;
    assert p[|BackupDir|..|p| - |OwlSuffix|] == IntString(v);
    assert p[|p| - |OwlSuffix|..] == OwlSuffix;
    IntStringRoundTrip(v);
  }

  /** The version a snapshot path names, if it has the form `backups/<int>.owl`. */
  function SnapshotVersion(p: string): Option<int>
  {
    if |p| >= |BackupDir| + |OwlSuffix| && p[..|BackupDir|] == BackupDir && p[|p| - |OwlSuffix|..] == OwlSuffix
    then ParseInt(p[|BackupDir|..|p| - |OwlSuffix|])
    else None
  }
}

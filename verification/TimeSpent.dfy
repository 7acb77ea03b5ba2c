/** The `hh:mm:ss` strings: the client's validator and the server's conversion to minutes. */
module TimeSpent {
  import opened Bytes
  import opened Numbers

  const COLON: byte := 58

  // ---------- `validate_time_spent` ----------

  function Pair(s: Text, i: nat): int
    requires i + 1 < |s| && IsDigit(s[i]) && IsDigit(s[i + 1])
  {
    10 * Digit(s[i]) + Digit(s[i + 1])
  }

  ghost predicate Shaped(s: Text) {
    && |s| == 8 && s[2] == COLON && s[5] == COLON
    && forall i | 0 <= i < 8 && i != 2 && i != 5 :: IsDigit(s[i])
  }

  ghost predicate ValidTime(s: Text) {
    Shaped(s) && Pair(s, 0) <= 23 && Pair(s, 3) <= 59 && Pair(s, 6) <= 59
  }

  /** The duration a valid string denotes. */
  ghost function Seconds(s: Text): int
    requires Shaped(s)
  {
    Pair(s, 0) * 3600 + Pair(s, 3) * 60 + Pair(s, 6)
  }

  lemma ScanPair(s: Text)
    requires |s| >= 2 && IsDigit(s[0]) && IsDigit(s[1])
    requires |s| > 2 ==> !IsDigit(s[2])
    ensures ScanInt(s) == Some((Pair(s, 0), s[2..]))
  {
    var d0, d1 := Digit(s[0]), Digit(s[1]);
    assert s[1..][1..] == s[2..];
    calc {
      ScanDigits(s, 0);
      ScanDigits(s[1..], d0);
      ScanDigits(s[2..], 10 * d0 + d1);
      (10 * d0 + d1, s[2..]);
    }
  }

  method ValidateTimeSpent(s: Text) returns (ok: bool)
    ensures ok <==> ValidTime(s)
  {
    if |s| != 8 {
      return false;
    }
    if s[2] != COLON || s[5] != COLON {
      return false;
    }
    var i := 0;
    while i < |s|
      invariant 0 <= i <= |s|
      invariant forall j | 0 <= j < i && j != 2 && j != 5 :: IsDigit(s[j])
    {
      if i != 2 && i != 5 && !IsDigit(s[i]) {
        return false;
      }
      i := i + 1;
    }
    ScanPair(s[0..2]);
    ScanPair(s[3..5]);
    ScanPair(s[6..8]);
    var hh, mm, ss := Stoi(s[0..2]).value, Stoi(s[3..5]).value, Stoi(s[6..8]).value;
    if hh < 0 || hh > 23 {
      return false;
    }
    if mm < 0 || mm > 59 {
      return false;
    }
    if ss < 0 || ss > 59 {
      return false;
    }
    return true;
  }

  // ---------- `getMinuteFromTime` ----------

  function MinuteFromTime(t: Text): int {
    var h := ScanInt(t);
    if h.None? || h.value.1 == [] || h.value.1[0] != COLON then -1
    else
      var m := ScanInt(h.value.1[1..]);
      if m.None? || m.value.1 == [] || m.value.1[0] != COLON then -1
      else
        var s := ScanInt(m.value.1[1..]);
        if s.None? then -1 else h.value.0 * 60 + m.value.0
  }

  /** On every string the client lets through, the minutes are the whole minutes of the duration. */
  lemma MinutesOfValid(s: Text)
    requires ValidTime(s)
    ensures MinuteFromTime(s) == Seconds(s) / 60
    ensures 0 <= MinuteFromTime(s) <= 1439
  {
    ScanPair(s);
    ScanPair(s[3..]);
    ScanPair(s[6..]);
    assert s[2..][1..] == s[3..] && s[3..][2..][1..] == s[6..];
  }

  /** The text begins with a number that denotes `n`, and `rest` follows it. */
  ghost predicate Begins(t: Text, n: int, rest: Text) {
    exists blanks, sign, ds :: Reads(t, blanks, sign, ds, rest, n)
  }

  /** The text begins with three numbers separated by colons, of which the first two are `h` and `m`. */
  ghost predicate Clock(t: Text, h: int, m: int) {
    exists afterH, afterM, afterS, s ::
      && Begins(t, h, afterH) && afterH != [] && afterH[0] == 58
      && Begins(afterH[1..], m, afterM) && afterM != [] && afterM[0] == 58
      && Begins(afterM[1..], s, afterS)
  }

  lemma ClockRead(t: Text, h: int, m: int)
    requires Clock(t, h, m)
    ensures MinuteFromTime(t) == 60 * h + m
  {
    var afterH, afterM, afterS, s :|
      && Begins(t, h, afterH) && afterH != [] && afterH[0] == 58
      && Begins(afterH[1..], m, afterM) && afterM != [] && afterM[0] == 58
      && Begins(afterM[1..], s, afterS);
    ScanIntIff(t, h, afterH);
    ScanIntIff(afterH[1..], m, afterM);
    ScanIntIff(afterM[1..], s, afterS);
  }

  lemma ClockFound(t: Text) returns (h: int, m: int)
    requires MinuteFromTime(t) != -1
    ensures Clock(t, h, m)
  {
    var hour := ScanInt(t).value;
    var minute := ScanInt(hour.1[1..]).value;
    var second := ScanInt(minute.1[1..]).value;
    h, m := hour.0, minute.0;
    ScanIntIff(t, h, hour.1);
    ScanIntIff(hour.1[1..], m, minute.1);
    ScanIntIff(minute.1[1..], second.0, second.1);
    assert Begins(t, h, hour.1) && Begins(hour.1[1..], m, minute.1) && Begins(minute.1[1..], second.0, second.1);
  }

  /** On every string at all: 60 times the first number and the second, or -1 if it is not three numbers. */
  lemma MinutesOfText(t: Text)
    ensures forall h, m :: Clock(t, h, m) ==> MinuteFromTime(t) == 60 * h + m
    ensures (forall h, m :: !Clock(t, h, m)) ==> MinuteFromTime(t) == -1
  {
    forall h, m | Clock(t, h, m) ensures MinuteFromTime(t) == 60 * h + m {
      ClockRead(t, h, m);
    }
    if MinuteFromTime(t) != -1 {
      var h, m := ClockFound(t);
    }
  }

  /** Byte-wise dictionary order on strings of equal length. */
  ghost predicate LexLess(s: Text, t: Text) {
    exists i :: 0 <= i < |s| && i < |t| && s[..i] == t[..i] && s[i] < t[i]
  }

  lemma LexAgrees(s: Text, t: Text)
    requires ValidTime(s) && ValidTime(t) && LexLess(s, t)
    ensures Seconds(s) < Seconds(t)
  {
    var i :| 0 <= i < |s| && i < |t| && s[..i] == t[..i] && s[i] < t[i];
    assert forall j :: 0 <= j < i ==> s[j] == s[..i][j] == t[..i][j] == t[j];
  }

  lemma LexTotal(s: Text, t: Text)
    requires |s| == |t| && s != t
    ensures LexLess(s, t) || LexLess(t, s)
  {
    var i := 0;
    while s[i] == t[i]
      invariant 0 <= i < |s|
      invariant s[..i] == t[..i]
      invariant s[i..] != t[i..]
      decreases |s| - i
    {
      assert s[i..] == [s[i]] + s[i + 1..] && t[i..] == [t[i]] + t[i + 1..];
      assert s[..i + 1] == s[..i] + [s[i]] && t[..i + 1] == t[..i] + [t[i]];
      i := i + 1;
    }
  }

  /** Sorting valid strings as text sorts the durations, and never disorders the minutes. */
  lemma OrderAgrees(s: Text, t: Text)
    requires ValidTime(s) && ValidTime(t)
    ensures LexLess(s, t) <==> Seconds(s) < Seconds(t)
    ensures LexLess(s, t) ==> MinuteFromTime(s) <= MinuteFromTime(t)
  {
    MinutesOfValid(s);
    MinutesOfValid(t);
    if LexLess(s, t) {
      LexAgrees(s, t);
    } else if s != t {
      LexTotal(s, t);
      LexAgrees(t, s);
    }
  }

  /**
    The buckets are wider than their names: "20 minutes" means strictly less than 21 minutes,
    "30 minutes" strictly less than 31.
  */
  lemma BucketBoundaries(s: Text)
    requires ValidTime(s)
    ensures MinuteFromTime(s) <= 20 <==> Seconds(s) < 21 * 60
    ensures MinuteFromTime(s) <= 30 <==> Seconds(s) < 31 * 60
    ensures exists t :: ValidTime(t) && MinuteFromTime(t) <= 20 && Seconds(t) > 20 * 60
  {
    MinutesOfValid(s);
    var t: Text := [48, 48, 58, 50, 48, 58, 53, 57];
    assert ValidTime(t);
    MinutesOfValid(t);
    assert Seconds(t) == 20 * 60 + 59;
  }
}

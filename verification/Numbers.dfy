/** Reading decimal numbers out of text, as `sscanf("%d")`, `std::stoi` and `std::stoll` do. */
module Numbers {
  import opened Bytes
  import opened Folds

  predicate IsSpace(c: byte) { c == 32 || 9 <= c <= 13 }

  predicate IsDigit(c: byte) { 48 <= c <= 57 }

  function Digit(c: byte): int
    requires IsDigit(c)
  {
    c as int - 48
  }

  function SkipSpace(s: Text): (r: Text)
    ensures |r| <= |s|
  {
    if s != [] && IsSpace(s[0]) then SkipSpace(s[1..]) else s
  }

  /** Consumes digits greedily, continuing the number `acc`. */
  function ScanDigits(s: Text, acc: int): (int, Text) {
    if s != [] && IsDigit(s[0]) then ScanDigits(s[1..], 10 * acc + Digit(s[0])) else (acc, s)
  }

  /** One `%d`: blanks, an optional sign, at least one digit. */
  function ScanInt(s: Text): Option<(int, Text)> {
    var t := SkipSpace(s);
    var signed := t != [] && (t[0] == 43 || t[0] == 45);
    var u := if signed then t[1..] else t;
    if u == [] || !IsDigit(u[0]) then None
    else
      var (n, rest) := ScanDigits(u, 0);
      Some((if signed && t[0] == 45 then -n else n, rest))
  }

  /** `std::stoi`: None where the source's call throws. */
  function Stoi(s: Text): Option<int> {
    var r := ScanInt(s);
    if r.Some? && -0x8000_0000 <= r.value.0 < 0x8000_0000 then Some(r.value.0) else None
  }

  /** `std::stoll`. */
  function Stoll(s: Text): Option<int> {
    var r := ScanInt(s);
    if r.Some? && -0x8000_0000_0000_0000 <= r.value.0 < 0x8000_0000_0000_0000 then Some(r.value.0) else None
  }

  // ---------- what is read ----------

  predicate Blank(c: byte) { c == 32 || (9 <= c && c <= 13) }

  predicate Digits(s: Text) { forall i :: 0 <= i < |s| ==> 48 <= s[i] as int <= 57 }

  /** The number that a string of decimal digits denotes, from its last digit on. */
  function ValueOf(ds: Text): int {
    if ds == [] then 0 else 10 * ValueOf(ds[..|ds| - 1]) + (ds[|ds| - 1] as int - 48)
  }

  /** `s` is blanks, perhaps a sign, a digit or more denoting `n` up to the sign, and a rest that starts with no digit. */
  ghost predicate Reads(s: Text, blanks: Text, sign: Text, ds: Text, rest: Text, n: int) {
    && s == blanks + sign + ds + rest
    && (forall i :: 0 <= i < |blanks| ==> Blank(blanks[i]))
    && (sign == [] || sign == [43] || sign == [45])
    && ds != [] && Digits(ds) && (rest != [] ==> !(48 <= rest[0] as int <= 57))
    && n == if sign == [45] then -ValueOf(ds) else ValueOf(ds)
  }

  lemma {:induction false} DigitsScanned(head: Text, ds: Text, rest: Text)
    requires Digits(ds) && (rest != [] ==> !IsDigit(rest[0]))
    ensures ScanDigits(ds + rest, ValueOf(head)) == (ValueOf(head + ds), rest)
    decreases |ds|
  {
    if ds == [] {
      assert ds + rest == rest && head + ds == head;
    } else {
      var next, more := head + [ds[0]], ds[1..];
      assert (ds + rest)[1..] == more + rest && next + more == head + ds && next[..|head|] == head;
      DigitsScanned(next, more, rest);
    }
  }

  lemma {:induction false} BlanksSkipped(blanks: Text, s: Text)
    requires (forall i :: 0 <= i < |blanks| ==> Blank(blanks[i])) && (s != [] ==> !IsSpace(s[0]))
    ensures SkipSpace(blanks + s) == s
    decreases |blanks|
  {
    if blanks == [] {
      assert blanks + s == s;
    } else {
      assert (blanks + s)[1..] == blanks[1..] + s;
      BlanksSkipped(blanks[1..], s);
    }
  }

  lemma NumberScanned(s: Text, blanks: Text, sign: Text, ds: Text, rest: Text, n: int)
    requires Reads(s, blanks, sign, ds, rest, n)
    ensures ScanInt(s) == Some((n, rest))
  {
    var u := ds + rest;
    var t := sign + u;
    Regroup(blanks, sign, ds);
    Regroup(blanks, sign + ds, rest);
    Regroup(sign, ds, rest);
    assert u[0] == ds[0];
    assert !IsSpace(t[0]);
    BlanksSkipped(blanks, t);
    DigitsScanned([], ds, rest);
    assert [] + ds == ds;
    AfterBlanks(s, sign, u);
  }

  lemma AfterBlanks(s: Text, sign: Text, u: Text)
    requires SkipSpace(s) == sign + u && (sign == [] || sign == [43] || sign == [45]) && u != [] && IsDigit(u[0])
    ensures var (n, rest) := ScanDigits(u, 0); ScanInt(s) == Some((if sign == [45] then -n else n, rest))
  {
    if sign == [] {
      assert sign + u == u;
    } else {
      assert (sign + u)[0] == sign[0] && (sign + u)[1..] == u;
    }
  }

  /** How a text begins: blanks, and what comes after them. */
  lemma {:induction false} BlanksSplit(s: Text) returns (blanks: Text)
    ensures s == blanks + SkipSpace(s) && forall i :: 0 <= i < |blanks| ==> Blank(blanks[i])
  {
    if s != [] && IsSpace(s[0]) {
      var more := BlanksSplit(s[1..]);
      blanks := [s[0]] + more;
      assert s == [s[0]] + s[1..];
    } else {
      blanks := [];
    }
  }

  lemma {:induction false} DigitsSplit(u: Text) returns (ds: Text, rest: Text)
    ensures u == ds + rest && Digits(ds) && (rest != [] ==> !IsDigit(rest[0]))
    ensures u != [] && IsDigit(u[0]) ==> ds != []
  {
    if u != [] && IsDigit(u[0]) {
      ds, rest := DigitsSplit(u[1..]);
      ds := [u[0]] + ds;
      assert u == [u[0]] + u[1..];
    } else {
      ds, rest := [], u;
    }
  }

  lemma NumberFound(s: Text) returns (blanks: Text, sign: Text, ds: Text, rest: Text, n: int)
    requires ScanInt(s).Some?
    ensures Reads(s, blanks, sign, ds, rest, n)
  {
    blanks := BlanksSplit(s);
    var t := SkipSpace(s);
    sign := if t[0] == 43 || t[0] == 45 then t[..1] else [];
    var u := t[|sign|..];
    ds, rest := DigitsSplit(u);
    assert t == sign + u;
    Regroup(blanks, sign, u);
    Regroup(blanks + sign, ds, rest);
    n := if sign == [45] then -ValueOf(ds) else ValueOf(ds);
  }

  /** One `%d` reads `n` and leaves `rest` exactly when the text is a number in front of `rest`. */
  lemma ScanIntIff(s: Text, n: int, rest: Text)
    ensures ScanInt(s) == Some((n, rest)) <==> exists blanks, sign, ds :: Reads(s, blanks, sign, ds, rest, n)
  {
    forall blanks, sign, ds | Reads(s, blanks, sign, ds, rest, n) ensures ScanInt(s) == Some((n, rest)) {
      NumberScanned(s, blanks, sign, ds, rest, n);
    }
    if ScanInt(s).Some? {
      var blanks, sign, ds, left, m := NumberFound(s);
      NumberScanned(s, blanks, sign, ds, left, m);
    }
  }

  ghost predicate Denotes(s: Text, n: int) {
    exists blanks, sign, ds, rest :: Reads(s, blanks, sign, ds, rest, n)
  }

  /** `stoi` and `stoll` give the number at the start of the text, and throw exactly if there is none or it does not fit. */
  lemma NumbersRead(s: Text, n: int)
    ensures Stoi(s) == Some(n) <==> Denotes(s, n) && -2147483648 <= n <= 2147483647
    ensures Stoll(s) == Some(n) <==> Denotes(s, n) && -9223372036854775808 <= n <= 9223372036854775807
  {
    if ScanInt(s).Some? {
      ScanIntIff(s, ScanInt(s).value.0, ScanInt(s).value.1);
    }
    forall blanks, sign, ds, rest | Reads(s, blanks, sign, ds, rest, n) ensures ScanInt(s) == Some((n, rest)) {
      NumberScanned(s, blanks, sign, ds, rest, n);
    }
  }

  // ---------- printed numbers ----------

  /** The decimal digits of a number, as the console sends it. */
  function Decimal(n: nat): Text {
    (if n < 10 then [] else Decimal(n / 10)) + [(48 + n % 10) as byte]
  }

  lemma {:induction false} DecimalDenotes(n: nat)
    ensures Digits(Decimal(n)) && Decimal(n) != [] && ValueOf(Decimal(n)) == n
  {
    if n >= 10 {
      DecimalDenotes(n / 10);
      assert Decimal(n)[..|Decimal(n)| - 1] == Decimal(n / 10);
    } else {
      assert Decimal(n)[..0] == [];
    }
  }

  /** A printed number is read back, if it fits. */
  lemma NumberRoundTrip(n: nat)
    ensures Stoi(Decimal(n)) == if n <= 2147483647 then Some(n) else None
    ensures Stoll(Decimal(n)) == if n <= 9223372036854775807 then Some(n) else None
  {
    DecimalDenotes(n);
    assert [] + [] + Decimal(n) + [] == Decimal(n);
    NumberScanned(Decimal(n), [], [], Decimal(n), [], n);
  }
}

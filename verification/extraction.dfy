/**
 * Price extraction from free text: `re.findall(r'\d+', text)` followed by
 * `int(...)` of the first match, or `None` when there is no match.
 */
module Extraction {
  import opened Wrappers

  predicate IsDigit(c: char) {
    '0' <= c <= '9'
  }

  function DigitValue(c: char): (d: nat)
    requires IsDigit(c)
    ensures d < 10
  {
    (c as int) - ('0' as int)
  }

  function DigitChar(d: nat): (c: char)
    requires d < 10
    ensures IsDigit(c) && DigitValue(c) == d
  {
    (('0' as int) + d) as char
  }

  predicate AllDigits(s: seq<char>) {
    forall k :: 0 <= k < |s| ==> IsDigit(s[k])
  }

  predicate NoDigit(s: seq<char>) {
    forall k :: 0 <= k < |s| ==> !IsDigit(s[k])
  }

  function Pow10(n: nat): (p: nat)
    ensures p >= 1
  {
    if n == 0 then 1 else 10 * Pow10(n - 1)
  }

  /** The number a run of decimal digits denotes, read most significant digit first
      (what `int` does with a digit string: unbounded, leading zeros allowed). */
  function Value(d: seq<char>): (n: nat)
    requires AllDigits(d)
    ensures n < Pow10(|d|)
    decreases |d|
  {
    if |d| == 0 then 0 else 10 * Value(d[..|d| - 1]) + DigitValue(d[|d| - 1])
  }

  /** Decimal rendering of a natural number, as an f-string prints an int. */
  function Show(n: nat): (s: seq<char>)
    ensures |s| > 0 && AllDigits(s)
    ensures |s| == 1 || s[0] != '0'
    decreases n
  {
    if n < 10 then [DigitChar(n)] else Show(n / 10) + [DigitChar(n % 10)]
  }

  /** Index of the first digit at or after `i`, or `|s|` when there is none. */
  function FirstDigit(s: seq<char>, i: nat): (k: nat)
    requires i <= |s|
    ensures i <= k <= |s|
    ensures forall m :: i <= m < k ==> !IsDigit(s[m])
    ensures k < |s| ==> IsDigit(s[k])
    decreases |s| - i
  {
    if i == |s| || IsDigit(s[i]) then i else FirstDigit(s, i + 1)
  }

  /** End of the maximal digit run that starts at `i`. */
  function RunEnd(s: seq<char>, i: nat): (j: nat)
    requires i <= |s|
    ensures i <= j <= |s|
    ensures forall m :: i <= m < j ==> IsDigit(s[m])
    ensures j < |s| ==> !IsDigit(s[j])
    ensures i < |s| && IsDigit(s[i]) ==> i < j
    decreases |s| - i
  {
    if i < |s| && IsDigit(s[i]) then RunEnd(s, i + 1) else i
  }

  /** The maximal runs of digits of `s` found by scanning from position `p`, left to right. */
  function FindAllFrom(s: seq<char>, p: nat): (runs: seq<seq<char>>)
    requires p <= |s|
    ensures forall k :: 0 <= k < |runs| ==> |runs[k]| > 0 && AllDigits(runs[k])
    ensures |runs| == 0 <==> FirstDigit(s, p) == |s|
    decreases |s| - p
  {
    var i := FirstDigit(s, p);
    if i == |s| then
      []
    else
      var j := RunEnd(s, i);
      assert IsDigit(s[i]);
      [s[i..j]] + FindAllFrom(s, j)
  }

  /** All maximal runs of digits in `s`, left to right: the list `re.findall(r'\d+', s)` returns. */
  function FindAll(s: seq<char>): (runs: seq<seq<char>>)
    ensures forall k :: 0 <= k < |runs| ==> |runs[k]| > 0 && AllDigits(runs[k])
    ensures |runs| == 0 <==> NoDigit(s)
  {
    var i := FirstDigit(s, 0);
    assert i == |s| ==> s[0..i] == s;
    assert i < |s| ==> s[i] == s[0..|s|][i];
    FindAllFrom(s, 0)
  }

  /** `extract_price`: the value of the first digit run, or None without one. */
  function ExtractPrice(s: seq<char>): (r: Option<nat>)
    ensures r.None? <==> NoDigit(s)
  {
    var runs := FindAll(s);
    if |runs| > 0 then Some(Value(runs[0])) else None
  }

  /** `s[i..j]` is the first maximal digit run of `s`: no digit before it,
      only digits inside it, and no digit right after it. */
  ghost predicate IsFirstRun(s: seq<char>, i: int, j: int) {
    && 0 <= i < j <= |s|
    && (forall m :: 0 <= m < i ==> !IsDigit(s[m]))
    && (forall m :: i <= m < j ==> IsDigit(s[m]))
    && (j < |s| ==> !IsDigit(s[j]))
  }

  /** The digits of `s`, in order, with everything else dropped. */
  function Digits(s: seq<char>): (d: seq<char>)
    decreases |s|
  {
    if |s| == 0 then []
    else if IsDigit(s[0]) then [s[0]] + Digits(s[1..])
    else Digits(s[1..])
  }

  /** The number written in the user-line template `Offered: $<offer> - Message: <input>`. */
  function OfferLine(offer: nat, input: seq<char>): seq<char> {
    "Offered: $" + Show(offer) + " - Message: " + input
  }

  // ---------------------------------------------------------------------------
  // Lemmas

  lemma {:induction false} ValueShow(n: nat)
    ensures Value(Show(n)) == n
    decreases n
  {
    if n >= 10 {
      ValueShow(n / 10);
      var s := Show(n);
      assert s[..|s| - 1] == Show(n / 10);
    }
  }

  /** The first run is unique. */
  lemma FirstRunUnique(s: seq<char>, i: int, j: int, i': int, j': int)
    requires IsFirstRun(s, i, j) && IsFirstRun(s, i', j')
    ensures i == i' && j == j'
  {
    assert IsDigit(s[i]) && IsDigit(s[i']);
    assert i == i';
  }

  /** The first element `FindAll` returns is exactly the first run. */
  lemma FindAllHead(s: seq<char>)
    requires !NoDigit(s)
    ensures IsFirstRun(s, FirstDigit(s, 0), RunEnd(s, FirstDigit(s, 0)))
    ensures FindAll(s)[0] == s[FirstDigit(s, 0)..RunEnd(s, FirstDigit(s, 0))]
  {
  }

  /** Full characterisation of `extract_price`: it returns the value of the first
      maximal digit run, and None exactly when there is no digit at all. */
  lemma ExtractPriceSpec(s: seq<char>, i: int, j: int)
    requires IsFirstRun(s, i, j)
    ensures ExtractPrice(s) == Some(Value(s[i..j]))
  {
    assert !NoDigit(s) by { assert s[i..j][0] == s[i]; }
    FindAllHead(s);
    FirstRunUnique(s, i, j, FirstDigit(s, 0), RunEnd(s, FirstDigit(s, 0)));
  }

  /** Conversely, a returned price is the value of some first run. */
  lemma ExtractPriceWitness(s: seq<char>)
    requires ExtractPrice(s).Some?
    ensures exists i, j :: IsFirstRun(s, i, j) && ExtractPrice(s).value == Value(s[i..j])
  {
    FindAllHead(s);
  }

  /** Text after the first number is ignored once a non-digit closes that number. */
  lemma {:induction false} LaterNumbersIgnored(p: seq<char>, t: seq<char>)
    requires ExtractPrice(p).Some?
    requires !IsDigit(p[|p| - 1])
    ensures ExtractPrice(p + t) == ExtractPrice(p)
  {
    FindAllHead(p);
    var i := FirstDigit(p, 0);
    var j := RunEnd(p, i);
    assert j < |p|;
    var s := p + t;
    assert s[..i] == p[..i];
    assert s[i..j] == p[i..j];
    assert s[j] == p[j];
    assert IsFirstRun(s, i, j);
    ExtractPriceSpec(s, i, j);
  }

  /** Text without digits in front of the first number does not change the result. */
  lemma LeadingTextIgnored(u: seq<char>, s: seq<char>)
    requires NoDigit(u)
    ensures ExtractPrice(u + s) == ExtractPrice(s)
  {
    if NoDigit(s) {
      NoDigitConcat(u, s);
    } else {
      LeadingTextBeforeNumber(u, s);
    }
  }

  lemma LeadingTextBeforeNumber(u: seq<char>, s: seq<char>)
    requires NoDigit(u) && !NoDigit(s)
    ensures ExtractPrice(u + s) == ExtractPrice(s)
  {
    var i, j := FirstRunOf(s);
    ShiftFirstRun(u, s, i, j);
    SameFirstRun(s, i, j, u + s, |u| + i, |u| + j);
  }

  /** Two texts whose first runs hold the same digits give the same price. */
  lemma SameFirstRun(s: seq<char>, i: int, j: int, t: seq<char>, a: int, b: int)
    requires IsFirstRun(s, i, j) && IsFirstRun(t, a, b)
    requires s[i..j] == t[a..b]
    ensures ExtractPrice(s) == ExtractPrice(t)
  {
    ExtractPriceSpec(s, i, j);
    ExtractPriceSpec(t, a, b);
  }

  /** A text with a digit has a first run. */
  lemma FirstRunOf(s: seq<char>) returns (i: nat, j: nat)
    requires !NoDigit(s)
    ensures IsFirstRun(s, i, j)
  {
    FindAllHead(s);
    i := FirstDigit(s, 0);
    j := RunEnd(s, i);
  }

  lemma NoDigitConcat(u: seq<char>, s: seq<char>)
    requires NoDigit(u) && NoDigit(s)
    ensures NoDigit(u + s)
  {
    var w := u + s;
    forall k | 0 <= k < |w| ensures !IsDigit(w[k]) {
      if k >= |u| { assert w[k] == s[k - |u|]; } else { assert w[k] == u[k]; }
    }
  }

  lemma ShiftFirstRun(u: seq<char>, s: seq<char>, i: int, j: int)
    requires NoDigit(u) && IsFirstRun(s, i, j)
    ensures IsFirstRun(u + s, |u| + i, |u| + j)
    ensures (u + s)[|u| + i..|u| + j] == s[i..j]
  {
    var w := u + s;
    forall m | 0 <= m < |u| + i ensures !IsDigit(w[m]) {
      if m < |u| { assert w[m] == u[m]; } else { assert w[m] == s[m - |u|]; }
    }
    forall m | |u| + i <= m < |u| + j ensures IsDigit(w[m]) {
      assert w[m] == s[m - |u|];
    }
    if |u| + j < |w| {
      assert w[|u| + j] == s[j];
    }
  }

  /** The first number wins: after digit-free leading text, a number closed by a
      non-digit is the price, whatever follows it. */
  lemma FirstNumberWins(lead: seq<char>, n: nat, rest: seq<char>)
    requires NoDigit(lead)
    requires |rest| > 0 && !IsDigit(rest[0])
    ensures ExtractPrice(lead + Show(n) + rest) == Some(n)
  {
    var t := Show(n) + rest;
    var k := |Show(n)|;
    assert lead + Show(n) + rest == lead + t;
    LeadingTextIgnored(lead, t);
    assert t[k] == rest[0];
    assert t[0..k] == Show(n);
    assert IsFirstRun(t, 0, k);
    ExtractPriceSpec(t, 0, k);
    ValueShow(n);
  }

  /** Re-reading the user line the chat history records gives back the offer. */
  lemma OfferLineRoundTrip(offer: nat, input: seq<char>)
    ensures ExtractPrice(OfferLine(offer, input)) == Some(offer)
  {
    var rest := " - Message: " + input;
    assert OfferLine(offer, input) == "Offered: $" + Show(offer) + rest;
    assert NoDigit("Offered: $");
    FirstNumberWins("Offered: $", offer, rest);
  }

  /** Digits skips a stretch of non-digits. */
  lemma {:induction false} DigitsSkip(s: seq<char>, k: nat, i: nat)
    requires k <= i <= |s|
    requires forall m :: k <= m < i ==> !IsDigit(s[m])
    ensures Digits(s[k..]) == Digits(s[i..])
    decreases i - k
  {
    if k < i {
      assert s[k..][0] == s[k];
      assert s[k..][1..] == s[k + 1..];
      DigitsSkip(s, k + 1, i);
    }
  }

  /** Digits keeps a stretch of digits whole. */
  lemma {:induction false} DigitsKeep(s: seq<char>, i: nat, j: nat)
    requires i <= j <= |s|
    requires forall m :: i <= m < j ==> IsDigit(s[m])
    ensures Digits(s[i..]) == s[i..j] + Digits(s[j..])
    decreases j - i
  {
    if i < j {
      assert s[i..][0] == s[i];
      assert s[i..][1..] == s[i + 1..];
      DigitsKeep(s, i + 1, j);
      assert s[i..j] == [s[i]] + s[i + 1..j];
    }
  }

  /** The runs joined end to end. */
  function Flatten(runs: seq<seq<char>>): seq<char> {
    if |runs| == 0 then [] else runs[0] + Flatten(runs[1..])
  }

  lemma {:induction false} FindAllFromCoversDigits(s: seq<char>, p: nat)
    requires p <= |s|
    ensures Flatten(FindAllFrom(s, p)) == Digits(s[p..])
    decreases |s| - p
  {
    var i := FirstDigit(s, p);
    DigitsSkip(s, p, i);
    if i == |s| {
      assert s[|s|..] == [];
    } else {
      var j := RunEnd(s, i);
      var rest := FindAllFrom(s, j);
      assert FindAllFrom(s, p) == [s[i..j]] + rest;
      assert ([s[i..j]] + rest)[1..] == rest;
      FindAllFromCoversDigits(s, j);
      DigitsKeep(s, i, j);
    }
  }

  /** `FindAll` loses no digit and invents none: its runs, joined, are the digits of `s`. */
  lemma FindAllCoversDigits(s: seq<char>)
    ensures Flatten(FindAll(s)) == Digits(s)
  {
    FindAllFromCoversDigits(s, 0);
    assert s[0..] == s;
  }

  /** One step of the scan from `p`: the first run at or after `p`, then the scan from its end. */
  lemma FindAllFromStep(s: seq<char>, p: nat) returns (i: nat, j: nat)
    requires p <= |s|
    requires 0 < |FindAllFrom(s, p)|
    ensures p <= i < j <= |s|
    ensures IsDigit(s[i])
    ensures p < i ==> !IsDigit(s[i - 1])
    ensures j < |s| ==> !IsDigit(s[j])
    ensures FindAllFrom(s, p) == [s[i..j]] + FindAllFrom(s, j)
  {
    i := FirstDigit(s, p);
    j := RunEnd(s, i);
  }

  lemma ConsFrom(x: seq<char>, rest: seq<seq<char>>, k: nat)
    requires 0 < k <= |rest| + 1
    ensures ([x] + rest)[k..] == rest[k - 1..]
  {
  }

  /** `p` does not fall strictly inside a run of digits. */
  predicate Boundary(s: seq<char>, p: nat)
    requires p <= |s|
  {
    p == 0 || p == |s| || !IsDigit(s[p - 1]) || !IsDigit(s[p])
  }

  /** Dropping the first run found from `p` leaves the runs found from the boundary where
      that run ends. */
  lemma DropFirstRun(s: seq<char>, p: nat, k: nat) returns (j: nat)
    requires p <= |s|
    requires 0 < k <= |FindAllFrom(s, p)|
    ensures p < j <= |s| && Boundary(s, j)
    ensures k - 1 <= |FindAllFrom(s, j)|
    ensures FindAllFrom(s, p)[k..] == FindAllFrom(s, j)[k - 1..]
  {
    var i;
    i, j := FindAllFromStep(s, p);
    ConsFrom(s[i..j], FindAllFrom(s, j), k);
  }

  /** Dropping the first `k` runs found from `p` leaves the runs found from some later
      boundary `q`. */
  lemma {:induction false} FindAllFromSuffix(s: seq<char>, p: nat, k: nat) returns (q: nat)
    requires p <= |s| && Boundary(s, p)
    requires k <= |FindAllFrom(s, p)|
    ensures p <= q <= |s| && Boundary(s, q)
    ensures FindAllFrom(s, p)[k..] == FindAllFrom(s, q)
    decreases |s| - p
  {
    if k == 0 {
      q := p;
    } else {
      var j0 := DropFirstRun(s, p, k);
      q := FindAllFromSuffix(s, j0, k - 1);
    }
  }

  /** Scanning from a boundary `q`, the first element found is a whole maximal run of `s`,
      and the scan goes on from where that run ends. */
  lemma FindAllFromFirstMaximal(s: seq<char>, q: nat) returns (i: nat, j: nat)
    requires q <= |s| && Boundary(s, q)
    requires 0 < |FindAllFrom(s, q)|
    ensures q <= i < j <= |s|
    ensures FindAllFrom(s, q)[0] == s[i..j]
    ensures i == 0 || !IsDigit(s[i - 1])
    ensures j == |s| || !IsDigit(s[j])
    ensures FindAllFrom(s, q)[1..] == FindAllFrom(s, j)
  {
    i, j := FindAllFromStep(s, q);
    ConsFrom(s[i..j], FindAllFrom(s, j), 1);
  }

  /** Every element `FindAll` returns is a maximal run of `s`: a slice of digits with no
      digit right before it and none right after it; the elements after it are exactly the
      runs found scanning on from its end. */
  lemma FindAllMaximal(s: seq<char>, k: nat) returns (i: nat, j: nat)
    requires k < |FindAll(s)|
    ensures i < j <= |s|
    ensures FindAll(s)[k] == s[i..j]
    ensures i == 0 || !IsDigit(s[i - 1])
    ensures j == |s| || !IsDigit(s[j])
    ensures FindAll(s)[k + 1..] == FindAllFrom(s, j)
  {
    var q := FindAllFromSuffix(s, 0, k);
    var runs := FindAllFrom(s, 0);
    assert runs[k] == runs[k..][0];
    assert runs[k + 1..] == runs[k..][1..];
    i, j := FindAllFromFirstMaximal(s, q);
  }

  lemma AllDigitsConcat(a: seq<char>, b: seq<char>)
    requires AllDigits(a) && AllDigits(b)
    ensures AllDigits(a + b)
  {
    forall k | 0 <= k < |a + b| ensures IsDigit((a + b)[k]) {
      if k < |a| { assert (a + b)[k] == a[k]; } else { assert (a + b)[k] == b[k - |a|]; }
    }
  }

  /** Appending one digit multiplies the value by ten and adds the digit. */
  lemma ValueSnoc(d: seq<char>, c: char)
    requires AllDigits(d) && IsDigit(c)
    ensures AllDigits(d + [c])
    ensures Value(d + [c]) == 10 * Value(d) + DigitValue(c)
  {
    AllDigitsConcat(d, [c]);
    assert (d + [c])[..|d|] == d;
  }

  lemma ShiftArith(x: int, p: int, y: int, c: int)
    ensures 10 * (x * p + y) + c == x * (10 * p) + (10 * y + c)
  {
  }

  /** Reading digits left to right: the value of `a + b` is `a` shifted by the length of `b`,
      plus the value of `b`. */
  lemma {:induction false} ValueConcat(a: seq<char>, b: seq<char>)
    requires AllDigits(a) && AllDigits(b)
    ensures AllDigits(a + b)
    ensures Value(a + b) == Value(a) * Pow10(|b|) + Value(b)
    decreases |b|
  {
    AllDigitsConcat(a, b);
    if |b| == 0 {
      assert a + b == a;
    } else {
      var b' := b[..|b| - 1];
      var c := b[|b| - 1];
      assert b == b' + [c];
      assert a + b == (a + b') + [c];
      ValueConcat(a, b');
      ValueSnoc(a + b', c);
      ValueSnoc(b', c);
      ShiftArith(Value(a), Pow10(|b'|), Value(b'), DigitValue(c));
    }
  }

  /** Leading zeros do not change the value, as with `int("0050") == 50`. */
  lemma LeadingZerosIgnored(z: seq<char>, d: seq<char>)
    requires forall k :: 0 <= k < |z| ==> z[k] == '0'
    requires AllDigits(d)
    ensures AllDigits(z + d)
    ensures Value(z + d) == Value(d)
  {
    ValueZeros(z);
    ValueConcat(z, d);
  }

  lemma {:induction false} ValueZeros(z: seq<char>)
    requires forall k :: 0 <= k < |z| ==> z[k] == '0'
    ensures AllDigits(z) && Value(z) == 0
    decreases |z|
  {
    if |z| > 0 {
      ValueZeros(z[..|z| - 1]);
    }
  }

  /** A thousands separator ends the number: "1,200" reads as 1. */
  lemma SeparatorSplitsNumber()
    ensures ExtractPrice("1,200") == Some(1)
  {
  }
}

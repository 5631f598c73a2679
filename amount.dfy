/** The amount check of `generate_qr` (app.py line 62, qr.py line 20):
    `amount and (not amount.replace('.', '').isdigit() or float(amount) < 0)`.
    Three outcomes: accepted, rejected with 400, or `float()` raising, which
    the handler's `except` turns into a 500. */
module Amount {
  import opened Text

  datatype Verdict = Accepted | Rejected | FloatError

  /** The number of '.' characters. */
  function DotCount(s: string): nat {
    multiset(s)['.']
  }

  /** `str.replace('.', '')`: the same characters in the same order, with
      every '.' deleted. */
  function RemoveDots(s: string): (t: string)
    ensures forall i :: 0 <= i < |t| ==> t[i] != '.'
    ensures multiset(t) == multiset(s)[ '.' := 0 ]
  {
    if s == [] then []
    else
      assert s == [s[0]] + s[1..];
      (if s[0] == '.' then [] else [s[0]]) + RemoveDots(s[1..])
  }

  /** `replace('.', '')` on one character keeps it unless it is a dot. */
  lemma RemoveDotsSingle(c: char)
    ensures RemoveDots([c]) == if c == '.' then [] else [c]
  {
    assert [c][1..] == [];
  }

  /** `replace('.', '')` keeps the order: the result for a concatenation is
      the concatenation of the results. */
  lemma {:induction false} RemoveDotsAppend(a: string, b: string)
    ensures RemoveDots(a + b) == RemoveDots(a) + RemoveDots(b)
    decreases |a|
  {
    if a == [] {
      assert a + b == b;
    } else {
      RemoveDotsAppend(a[1..], b);
      var head := if a[0] == '.' then [] else [a[0]];
      ConsAppend(a, b);
      assert RemoveDots(a + b) == head + RemoveDots(a[1..] + b);
      assert RemoveDots(a) == head + RemoveDots(a[1..]);
      Regroup(head, RemoveDots(a[1..]), RemoveDots(b));
    }
  }

  lemma ConsAppend(a: string, b: string)
    requires a != []
    ensures (a + b)[0] == a[0] && (a + b)[1..] == a[1..] + b
  {
  }

  lemma Regroup(x: string, y: string, z: string)
    ensures x + (y + z) == (x + y) + z
  {
  }

  /** Every character a digit or a dot: the only strings that get past the
      digit check to `float()`. */
  predicate DigitsAndDots(s: string) {
    forall i :: 0 <= i < |s| ==> IsDigit(s[i]) || s[i] == '.'
  }

  predicate HasDigit(s: string) {
    exists i :: 0 <= i < |s| && IsDigit(s[i])
  }

  /** Digits only, possibly none. */
  predicate AllDigits(s: string) {
    forall i :: 0 <= i < |s| ==> IsDigit(s[i])
  }

  /** The value of a run of decimal digits; the empty run is 0. */
  function NatValue(s: string): nat
    requires AllDigits(s)
  {
    if s == [] then 0 else 10 * NatValue(s[..|s| - 1]) + DigitValue(s[|s| - 1])
  }

  function Pow10(n: nat): (p: nat)
    ensures p >= 1
  {
    if n == 0 then 1 else 10 * Pow10(n - 1)
  }

  /** Python's `float()` on a string of ASCII digits and dots holding at
      least one digit: with one dot at most it reads a decimal numeral
      (`1`, `1.`, `.5`, `1.5`), with two or more it raises `ValueError`.
      The value is the exact decimal; rounding to a double is not modelled
      and cannot change the sign. */
  function ParseFloat(s: string): (v: Option<real>)
    requires DigitsAndDots(s) && HasDigit(s)
    ensures v.Some? ==> v.value >= 0.0
    ensures v.Some? && AllDigits(s) ==> v.value == NatValue(s) as real
  {
    if DotCount(s) > 1 then None
    else
      var k := IndexOf(s, '.');
      if k == |s| then Some(NatValue(s) as real)
      else
        DotSplit(s, k);
        NoDot(s[k + 1..]);
        Some(NatValue(s[..k]) as real + NatValue(s[k + 1..]) as real / Pow10(|s| - k - 1) as real)
  }

  /** The check itself, for an ASCII amount (`str.isdigit` accepts other
      Unicode digits, and `float()` other Unicode numerals, which this model
      does not cover). */
  function CheckAmount(amount: string): Verdict
    requires IsAscii(amount)
  {
    if amount == [] then Accepted
    else if !IsDigits(RemoveDots(amount)) then Rejected
    else
      DigitCheckPassed(amount);
      match ParseFloat(amount)
      case None => FloatError
      case Some(x) => if x < 0.0 then Rejected else Accepted
  }

  // ---------------------------------------------------------------------
  // Reference definition: a non-negative decimal numeral

  /** Digits with at most one '.' among them, and at least one digit. */
  predicate IsDecimalNumeral(a: string) {
    (a != [] && AllDigits(a)) ||
    (|a| >= 2 && exists k :: 0 <= k < |a| && a[k] == '.' && AllDigits(a[..k]) && AllDigits(a[k + 1..]))
  }

  /** The amount the check answers with 400: not empty, and holding a
      character other than a digit or a dot, or no digit at all. */
  predicate AmountMalformed(a: string) {
    a != [] && (!DigitsAndDots(a) || !HasDigit(a))
  }

  /** The amount on which `float()` raises: digits with two or more dots. */
  predicate AmountUnparsable(a: string) {
    DigitsAndDots(a) && HasDigit(a) && DotCount(a) >= 2
  }

  // ---------------------------------------------------------------------
  // Properties

  lemma NoDot(x: string)
    ensures DotCount(x) == 0 <==> forall i :: 0 <= i < |x| ==> x[i] != '.'
  {
    if DotCount(x) != 0 {
      assert '.' in x;
    }
  }

  /** Splitting at a dot: the dots before it, that one, and the dots after. */
  lemma DotSplit(a: string, k: nat)
    requires k < |a| && a[k] == '.'
    ensures DotCount(a) == DotCount(a[..k]) + 1 + DotCount(a[k + 1..])
  {
    assert a == a[..k] + [a[k]] + a[k + 1..];
  }

  /** Deleting the dots leaves a non-empty digit string exactly when the
      amount is made of digits and dots and holds at least one digit. */
  lemma RemoveDotsDigits(s: string)
    ensures IsDigits(RemoveDots(s)) <==> DigitsAndDots(s) && HasDigit(s)
  {
    var t := RemoveDots(s);
    RemoveDotsMembers(s);
    if IsDigits(t) {
      forall i | 0 <= i < |s| ensures IsDigit(s[i]) || s[i] == '.' {
        if s[i] != '.' {
          assert s[i] in t;
        }
      }
      assert t[0] in s;
    }
    if DigitsAndDots(s) && HasDigit(s) {
      var i :| 0 <= i < |s| && IsDigit(s[i]);
      assert s[i] in t;
      forall j | 0 <= j < |t| ensures IsDigit(t[j]) {
        assert t[j] in s;
      }
    }
  }

  /** The characters left after deleting the dots are those of the amount
      other than '.'. */
  lemma RemoveDotsMembers(s: string)
    ensures forall c :: c in RemoveDots(s) <==> c in s && c != '.'
  {
    var t := RemoveDots(s);
    forall c ensures c in t <==> c in s && c != '.' {
      assert c in t <==> c in multiset(t);
      assert c in s <==> c in multiset(s);
    }
  }

  lemma DigitCheckPassed(s: string)
    requires IsDigits(RemoveDots(s))
    ensures DigitsAndDots(s) && HasDigit(s)
  {
    RemoveDotsDigits(s);
  }

  lemma DigitsBothSides(a: string, k: nat)
    requires DigitsAndDots(a) && k < |a| && a[k] == '.' && DotCount(a) == 1
    ensures AllDigits(a[..k]) && AllDigits(a[k + 1..])
  {
    DotSplit(a, k);
    NoDot(a[..k]);
    NoDot(a[k + 1..]);
    forall i | 0 <= i < k ensures IsDigit(a[..k][i]) {
      assert a[..k][i] == a[i];
    }
    var after := a[k + 1..];
    forall i | 0 <= i < |after| ensures IsDigit(after[i]) {
      assert after[i] == a[k + 1 + i];
    }
  }

  /** At most one dot among digits is exactly the shape of a decimal
      numeral. */
  lemma OneDotNumeral(a: string)
    requires DigitsAndDots(a) && HasDigit(a)
    ensures DotCount(a) <= 1 <==> IsDecimalNumeral(a)
  {
    var k := IndexOf(a, '.');
    NoDot(a);
    if k < |a| {
      if DotCount(a) <= 1 {
        DotSplit(a, k);
        DigitsBothSides(a, k);
        var i :| 0 <= i < |a| && IsDigit(a[i]);
        assert i != k;
      }
      if IsDecimalNumeral(a) {
        assert !AllDigits(a);
        var j :| 0 <= j < |a| && a[j] == '.' && AllDigits(a[..j]) && AllDigits(a[j + 1..]);
        DotSplit(a, j);
        NoDot(a[..j]);
        NoDot(a[j + 1..]);
      }
    }
  }

  /** The three outcomes of the check, each stated without reference to
      `replace` or `float`:
      accepted exactly for the empty amount and decimal numerals;
      rejected with 400 exactly when a non-empty amount holds a character
      other than a digit or a dot, or holds no digit at all;
      `float()` raises exactly for digits with two or more dots. */
  lemma Verdicts(a: string)
    requires IsAscii(a)
    ensures CheckAmount(a) == Accepted <==> a == [] || IsDecimalNumeral(a)
    ensures CheckAmount(a) == Rejected <==> AmountMalformed(a)
    ensures CheckAmount(a) == FloatError <==> AmountUnparsable(a)
  {
    RemoveDotsDigits(a);
    if a != [] && DigitsAndDots(a) && HasDigit(a) {
      OneDotNumeral(a);
    }
    if a != [] && IsDecimalNumeral(a) {
      assert HasDigit(a) by {
        if AllDigits(a) { assert IsDigit(a[0]); }
        else {
          var k :| 0 <= k < |a| && a[k] == '.' && AllDigits(a[..k]) && AllDigits(a[k + 1..]);
          if k > 0 { assert IsDigit(a[..k][0]); } else { assert IsDigit(a[k + 1..][0]); }
        }
      }
      assert DigitsAndDots(a) by {
        if !AllDigits(a) {
          var k :| 0 <= k < |a| && a[k] == '.' && AllDigits(a[..k]) && AllDigits(a[k + 1..]);
          forall i | 0 <= i < |a| ensures IsDigit(a[i]) || a[i] == '.' {
            if i < k { assert a[i] == a[..k][i]; }
            else if i > k { assert a[i] == a[k + 1..][i - k - 1]; }
          }
        }
      }
      OneDotNumeral(a);
    }
  }

  /** A minus sign anywhere is rejected by the digit check, so the
      `float(amount) < 0` clause can never decide the outcome. */
  lemma MinusRejected(a: string)
    requires IsAscii(a) && '-' in a
    ensures CheckAmount(a) == Rejected
  {
    RemoveDotsDigits(a);
    var i :| 0 <= i < |a| && a[i] == '-';
    assert !DigitsAndDots(a);
  }

  /** The negative-value branch is dead: whenever `float()` is reached and
      succeeds, its value is non-negative, so the verdict only depends on the
      digit check and on whether `float()` raises. */
  lemma NegativeBranchDead(a: string)
    requires IsAscii(a) && a != [] && IsDigits(RemoveDots(a))
    ensures CheckAmount(a) == (if DotCount(a) <= 1 then Accepted else FloatError)
  {
    DigitCheckPassed(a);
  }

  /** A whole number of digits is accepted. */
  lemma DigitsAccepted(a: string)
    requires IsAscii(a) && a != [] && AllDigits(a)
    ensures CheckAmount(a) == Accepted
  {
    Verdicts(a);
  }

  /** `100` is accepted. */
  lemma HundredAccepted()
    ensures CheckAmount("100") == Accepted
  {
    DigitsAccepted("100");
  }

  /** Two dots at different places make a count of at least two. */
  lemma DotsAt(a: string, i: nat, j: nat)
    requires i < j < |a| && a[i] == '.' && a[j] == '.'
    ensures DotCount(a) >= 2
  {
    DotSplit(a, j);
    assert a[..j][i] == '.';
    assert '.' in multiset(a[..j]);
  }

  lemma TwoDotsCounted()
    ensures DotCount("1.2.3") >= 2 && DigitsAndDots("1.2.3") && HasDigit("1.2.3")
  {
    var a := "1.2.3";
    DotsAt(a, 1, 3);
    assert IsDigit(a[0]);
  }

  /** `1.2.3` gets past the digit check, and then `float()` raises. */
  lemma TwoDotsRaise()
    ensures CheckAmount("1.2.3") == FloatError
  {
    TwoDotsCounted();
    Verdicts("1.2.3");
  }
}

/**
 Properties of the CPF validator: the digit filter, the guards, the
 suffix comparison the source performs, and concrete verdicts.
 */
module CpfProperties {
  import opened Decimal
  import opened CpfValidator

  /** Filtering distributes over concatenation. */
  lemma {:induction false} DigitsOfAppend(a: seq<char>, b: seq<char>)
    ensures DigitsOf(a + b) == DigitsOf(a) + DigitsOf(b)
    decreases |a|
  {
    if a != [] {
      assert (a + b)[1..] == a[1..] + b;
      DigitsOfAppend(a[1..], b);
    } else {
      assert a + b == b;
    }
  }

  /**
   On one character the filter keeps exactly the digits; with DigitsOfAppend
   this determines the projection of every string.
   */
  lemma DigitsOfSingle(c: char)
    ensures DigitsOf([c]) == if IsDigit(c) then [c] else []
  {
    assert [c][1..] == [];
  }

  /** A string of digits is its own digit-only projection. */
  lemma {:induction false} DigitsOfDigits(s: seq<char>)
    requires AllDigits(s)
    ensures DigitsOf(s) == s
    decreases |s|
  {
    if s != [] {
      DigitsOfDigits(s[1..]);
      assert s == [s[0]] + s[1..];
    }
  }

  /** A candidate made of digits only is judged on its own characters. */
  lemma DigitStringValidity(s: seq<char>)
    requires AllDigits(s)
    ensures IsValidCpf(s) <==> |s| == 11 && !AllSame(s) && ChecksumOk(s)
  {
    DigitsOfDigits(s);
  }

  /** Filtering twice is filtering once. */
  lemma DigitsOfIdempotent(s: seq<char>)
    ensures DigitsOf(DigitsOf(s)) == DigitsOf(s)
  {
    DigitsOfDigits(DigitsOf(s));
  }

  /** Removing one non-digit character does not change the projection. */
  lemma DigitsOfDropNonDigit(a: seq<char>, c: char, b: seq<char>)
    requires !IsDigit(c)
    ensures DigitsOf(a + [c] + b) == DigitsOf(a + b)
  {
    DigitsOfAppend(a + [c], b);
    DigitsOfAppend(a, [c]);
    DigitsOfAppend(a, b);
    assert DigitsOf([c]) == [];
  }

  /** The verdict depends on the digit-only projection alone. */
  lemma ValidityIgnoresFormatting(s: seq<char>)
    ensures IsValidCpf(s) == IsValidCpf(DigitsOf(s))
  {
    DigitsOfIdempotent(s);
  }

  /** Inserting a separator, space or any other non-digit leaves the verdict unchanged. */
  lemma NonDigitInsertionPreservesValidity(a: seq<char>, c: char, b: seq<char>)
    requires !IsDigit(c)
    ensures IsValidCpf(a + [c] + b) == IsValidCpf(a + b)
  {
    DigitsOfDropNonDigit(a, c, b);
  }

  /** A candidate whose projection does not have eleven digits is rejected. */
  lemma WrongLengthInvalid(s: seq<char>)
    requires |DigitsOf(s)| != 11
    ensures !IsValidCpf(s)
  {
  }

  /** Eleven copies of one digit are rejected. */
  lemma UniformInvalid(c: char)
    requires IsDigit(c)
    ensures !IsValidCpf(seq(11, _ => c))
  {
    var s := seq(11, _ => c);
    DigitsOfDigits(s);
  }

  /**
   Eleven copies of one digit satisfy the checksum, so without the
   uniform-digit guard all ten of them would be accepted.
   */
  lemma UniformPassesChecksum(c: char)
    requires IsDigit(c)
    ensures ChecksumOk(seq(11, _ => c))
  {
    var s := seq(11, _ => c);
    var base := s[..9];
    var v := DigitValue(c);
    FirstSumExpanded(base);
    UniformRemainders(v);
    assert FirstCheckDigit(base) == v by {
      CheckDigitUnique(54 * v % 11, v);
    }
    SecondSumExpanded(base);
    DigitCharOfValue(c);
    assert SecondCheckDigit(base) == v by {
      CheckDigitUnique(65 * v % 11, v);
    }
  }

  /** For a digit v, adding v to 54v or to 65v gives a multiple of 11 (54 and 65 are both 10 modulo 11). */
  lemma UniformRemainders(v: nat)
    requires v < 10
    ensures (54 * v % 11 + v) % 11 == 0
    ensures (65 * v % 11 + v) % 11 == 0
  {
    assert v == 0 || v == 1 || v == 2 || v == 3 || v == 4
        || v == 5 || v == 6 || v == 7 || v == 8 || v == 9;
  }

  /** The first weighted sum of a nine-digit base written out term by term. */
  lemma FirstSumExpanded(base: seq<char>)
    requires |base| == 9 && AllDigits(base)
    ensures WeightedSum(base, Multiplicador1, 9)
         == 10 * DigitValue(base[0]) + 9 * DigitValue(base[1]) + 8 * DigitValue(base[2])
          + 7 * DigitValue(base[3]) + 6 * DigitValue(base[4]) + 5 * DigitValue(base[5])
          + 4 * DigitValue(base[6]) + 3 * DigitValue(base[7]) + 2 * DigitValue(base[8])
  {
    WeightedSumStep(base, Multiplicador1, 0, 10);
    WeightedSumStep(base, Multiplicador1, 1, 9);
    WeightedSumStep(base, Multiplicador1, 2, 8);
    WeightedSumStep(base, Multiplicador1, 3, 7);
    WeightedSumStep(base, Multiplicador1, 4, 6);
    WeightedSumStep(base, Multiplicador1, 5, 5);
    WeightedSumStep(base, Multiplicador1, 6, 4);
    WeightedSumStep(base, Multiplicador1, 7, 3);
    WeightedSumStep(base, Multiplicador1, 8, 2);
  }

  /** The second weighted sum, over a nine-digit base and its first check digit, written out. */
  lemma SecondSumExpanded(base: seq<char>)
    requires |base| == 9 && AllDigits(base)
    ensures WeightedSum(Extended(base), Multiplicador2, 10)
         == 11 * DigitValue(base[0]) + 10 * DigitValue(base[1]) + 9 * DigitValue(base[2])
          + 8 * DigitValue(base[3]) + 7 * DigitValue(base[4]) + 6 * DigitValue(base[5])
          + 5 * DigitValue(base[6]) + 4 * DigitValue(base[7]) + 3 * DigitValue(base[8])
          + 2 * FirstCheckDigit(base)
  {
    var ext := Extended(base);
    WeightedSumStep(ext, Multiplicador2, 0, 11);
    WeightedSumStep(ext, Multiplicador2, 1, 10);
    WeightedSumStep(ext, Multiplicador2, 2, 9);
    WeightedSumStep(ext, Multiplicador2, 3, 8);
    WeightedSumStep(ext, Multiplicador2, 4, 7);
    WeightedSumStep(ext, Multiplicador2, 5, 6);
    WeightedSumStep(ext, Multiplicador2, 6, 5);
    WeightedSumStep(ext, Multiplicador2, 7, 4);
    WeightedSumStep(ext, Multiplicador2, 8, 3);
    WeightedSumStep(ext, Multiplicador2, 9, 2);
    DigitValueOfChar(FirstCheckDigit(base));
  }

  /**
   The source's formulation: eleven digits, not all the same, ending with
   the text of the two check digits.
   */
  lemma ValidIffEndsWithCheckDigits(s: seq<char>)
    ensures var cpf := DigitsOf(s);
      IsValidCpf(s) <==>
        && |cpf| == 11
        && !AllSame(cpf)
        && EndsWith(cpf, ToDecimalString(FirstCheckDigit(cpf[..9]))
                         + ToDecimalString(SecondCheckDigit(cpf[..9])))
  {
    var cpf := DigitsOf(s);
    if |cpf| == 11 {
      var d1 := FirstCheckDigit(cpf[..9]);
      var d2 := SecondCheckDigit(cpf[..9]);
      assert ToDecimalString(d1) + ToDecimalString(d2) == [DigitChar(d1), DigitChar(d2)];
      EndsWithTwo(cpf, DigitChar(d1), DigitChar(d2));
    }
  }

  /** A well-known valid CPF: its check digits are 2 and 5. */
  lemma Accepts52998224725(s: seq<char>)
    requires s == "52998224725"
    ensures IsValidCpf(s)
  {
    DigitStringValidity(s);
    CheckDigitsOf529982247(s[..9]);
    assert s[1] != s[0];
  }

  /** The same CPF with its last digit altered is rejected. */
  lemma Rejects52998224726(s: seq<char>)
    requires s == "52998224726"
    ensures !IsValidCpf(s)
  {
    DigitStringValidity(s);
    CheckDigitsOf529982247(s[..9]);
  }

  /** The valid CPF in its usual punctuated form is accepted too. */
  lemma AcceptsFormatted(s: seq<char>)
    requires s == "529.982.247-25"
    ensures IsValidCpf(s)
  {
    assert s == "529" + ['.'] + "982.247-25";
    NonDigitInsertionPreservesValidity("529", '.', "982.247-25");
    assert "529" + "982.247-25" == "529982" + ['.'] + "247-25";
    NonDigitInsertionPreservesValidity("529982", '.', "247-25");
    assert "529982" + "247-25" == "529982247" + ['-'] + "25";
    NonDigitInsertionPreservesValidity("529982247", '-', "25");
    Accepts52998224725("529982247" + "25");
  }

  /** 12345678900 is rejected: the check digits of 123456789 are 0 and 9. */
  lemma Rejects12345678900(s: seq<char>)
    requires s == "12345678900"
    ensures !IsValidCpf(s)
  {
    DigitStringValidity(s);
    CheckDigitsOf123456789(s[..9]);
  }

  /** Eleven ones are rejected, although they satisfy the checksum. */
  lemma Rejects11111111111(s: seq<char>)
    requires s == "11111111111"
    ensures !IsValidCpf(s)
  {
    assert s == seq(11, _ => '1');
    UniformInvalid('1');
  }

  /** The check digits of the base 529982247 are 2 and 5. */
  lemma CheckDigitsOf529982247(base: seq<char>)
    requires base == "529982247"
    ensures AllDigits(base)
    ensures FirstCheckDigit(base) == 2 && SecondCheckDigit(base) == 5
  {
    FirstSumExpanded(base);
    SecondSumExpanded(base);
    assert WeightedSum(base, Multiplicador1, 9) == 295;
    assert WeightedSum(Extended(base), Multiplicador2, 10) == 347;
  }

  /** The check digits of the base 123456789 are 0 and 9. */
  lemma CheckDigitsOf123456789(base: seq<char>)
    requires base == "123456789"
    ensures AllDigits(base)
    ensures FirstCheckDigit(base) == 0 && SecondCheckDigit(base) == 9
  {
    FirstSumExpanded(base);
    SecondSumExpanded(base);
    assert WeightedSum(base, Multiplicador1, 9) == 210;
    assert WeightedSum(Extended(base), Multiplicador2, 10) == 255;
  }
}

/**
 The Brazilian CPF (Cadastro de Pessoas Fisicas) check-digit validator.

 A candidate is reduced to its digits; it is valid when exactly eleven
 digits remain, they are not all the same digit, and the last two are the
 two mod-11 check digits computed from the first nine.
 */
module CpfValidator {
  import opened Decimal

  /** The weights of the first check digit, 10 down to 2. */
  const Multiplicador1: seq<int> := [10, 9, 8, 7, 6, 5, 4, 3, 2]

  /** The weights of the second check digit, 11 down to 2. */
  const Multiplicador2: seq<int> := [11, 10, 9, 8, 7, 6, 5, 4, 3, 2]

  /** The digit-only projection of a candidate: its digits, in their original order. */
  function DigitsOf(s: seq<char>): (r: seq<char>)
    ensures AllDigits(r)
    ensures |r| <= |s|
  {
    if s == [] then []
    else (if IsDigit(s[0]) then [s[0]] else []) + DigitsOf(s[1..])
  }

  /** Every character of `ds` equals its first one; equivalently, any two of its characters are equal. */
  predicate AllSame(ds: seq<char>)
    ensures AllSame(ds) <==> forall i, j :: 0 <= i < |ds| && 0 <= j < |ds| ==> ds[i] == ds[j]
  {
    forall i :: 0 <= i < |ds| ==> ds[i] == ds[0]
  }

  /**
   The sum, over the first `n` positions, of each digit's value times the
   weight at the same position.
   */
  function WeightedSum(ds: seq<char>, ws: seq<int>, n: nat): (sum: int)
    requires n <= |ds| == |ws| && AllDigits(ds)
    ensures (forall i :: 0 <= i < n ==> ws[i] >= 0) ==> sum >= 0
  {
    if n == 0 then 0
    else WeightedSum(ds, ws, n - 1) + DigitValue(ds[n - 1]) * ws[n - 1]
  }

  /**
   The check digit for the remainder `r` of a weighted sum modulo 11:
   the digit that brings the sum to a multiple of 11, where that digit
   would be 10 (remainder 1) it is 0 instead.
   */
  function CheckDigit(r: int): (d: nat)
    requires 0 <= r < 11
    ensures d < 10
    ensures (r + d) % 11 == 0 || (r == 1 && d == 0)
  {
    if r < 2 then 0 else 11 - r
  }

  /** The property CheckDigit promises picks out exactly one digit. */
  lemma CheckDigitUnique(r: int, d: nat)
    requires 0 <= r < 11 && d < 10
    requires (r + d) % 11 == 0 || (r == 1 && d == 0)
    ensures d == CheckDigit(r)
  {
    if r >= 2 {
      assert 2 <= r + d < 22;
    }
  }

  /** Adding to a number or to its remainder modulo 11 leaves the same remainder. */
  lemma RemainderThenAdd(a: int, b: int)
    ensures (a % 11 + b) % 11 == (a + b) % 11
  {
    var q := a / 11;
    assert a == 11 * q + a % 11;
    assert a + b == (a % 11 + b) + 11 * q;
  }

  /** The first check digit of a nine-digit base. */
  function FirstCheckDigit(base: seq<char>): (d: nat)
    requires |base| == 9 && AllDigits(base)
    ensures d < 10
    ensures var sum := WeightedSum(base, Multiplicador1, 9);
      (sum + d) % 11 == 0 || (sum % 11 == 1 && d == 0)
  {
    var sum := WeightedSum(base, Multiplicador1, 9);
    var d := CheckDigit(sum % 11);
    RemainderThenAdd(sum, d);
    d
  }

  /** The nine-digit base followed by its first check digit. */
  function Extended(base: seq<char>): (ext: seq<char>)
    requires |base| == 9 && AllDigits(base)
    ensures |ext| == 10 && AllDigits(ext) && ext[..9] == base
  {
    base + [DigitChar(FirstCheckDigit(base))]
  }

  /** The second check digit of a nine-digit base. */
  function SecondCheckDigit(base: seq<char>): (d: nat)
    requires |base| == 9 && AllDigits(base)
    ensures d < 10
    ensures var sum := WeightedSum(Extended(base), Multiplicador2, 10);
      (sum + d) % 11 == 0 || (sum % 11 == 1 && d == 0)
  {
    var sum := WeightedSum(Extended(base), Multiplicador2, 10);
    var d := CheckDigit(sum % 11);
    RemainderThenAdd(sum, d);
    d
  }

  /** The last two digits of an eleven-digit string are the check digits of the first nine. */
  predicate ChecksumOk(cpf: seq<char>)
    requires |cpf| == 11 && AllDigits(cpf)
    ensures ChecksumOk(cpf) <==>
      DigitValue(cpf[9]) == FirstCheckDigit(cpf[..9]) && DigitValue(cpf[10]) == SecondCheckDigit(cpf[..9])
  {
    && cpf[9] == DigitChar(FirstCheckDigit(cpf[..9]))
    && cpf[10] == DigitChar(SecondCheckDigit(cpf[..9]))
  }

  /** The validity of a candidate CPF, in any formatting; a valid candidate has at least eleven characters. */
  predicate IsValidCpf(s: seq<char>)
    ensures IsValidCpf(s) ==> |s| >= 11
  {
    var cpf := DigitsOf(s);
    |cpf| == 11 && !AllSame(cpf) && ChecksumOk(cpf)
  }

  /** `s` ends with `suffix`: position by position, the last |suffix| characters of `s` are those of `suffix`. */
  predicate EndsWith(s: seq<char>, suffix: seq<char>)
    ensures EndsWith(s, suffix) <==>
      |suffix| <= |s| && forall i :: 0 <= i < |suffix| ==> s[|s| - |suffix| + i] == suffix[i]
  {
    |suffix| <= |s| && s[|s| - |suffix|..] == suffix
  }

  /**
   The validator as the source runs it: filter, reject by length and by
   uniform digits, accumulate the two weighted sums in loops, render the
   check digits as text and compare the suffix.
   */
  method ValidaCpf(input: seq<char>) returns (ok: bool)
    ensures ok == IsValidCpf(input)
  {
    var cpf := DigitsOf(input);
    if |cpf| != 11 || AllSame(cpf) {
      return false;
    }

    var tempCpf := cpf[..9];
    var soma := 0;
    for i := 0 to 9
      invariant soma == WeightedSum(tempCpf, Multiplicador1, i)
    {
      ParseSingleDigit(tempCpf[i]);
      soma := soma + ParseDecimal([tempCpf[i]]) * Multiplicador1[i];
    }

    var resto := soma % 11;
    if resto < 2 {
      resto := 0;
    } else {
      resto := 11 - resto;
    }
    ghost var d1 := FirstCheckDigit(cpf[..9]);
    assert resto == d1;

    var digito := ToDecimalString(resto);
    tempCpf := tempCpf + digito;
    assert |digito| == 1 && tempCpf == Extended(cpf[..9]);
    soma := 0;
    for i := 0 to 10
      invariant soma == WeightedSum(tempCpf, Multiplicador2, i)
    {
      ParseSingleDigit(tempCpf[i]);
      soma := soma + ParseDecimal([tempCpf[i]]) * Multiplicador2[i];
    }

    resto := soma % 11;
    if resto < 2 {
      resto := 0;
    } else {
      resto := 11 - resto;
    }
    ghost var d2 := SecondCheckDigit(cpf[..9]);
    assert resto == d2;

    digito := digito + ToDecimalString(resto);
    assert |digito| == 2;
    EndsWithTwo(cpf, DigitChar(d1), DigitChar(d2));
    ok := EndsWith(cpf, digito);
  }

  /** One more position adds that position's digit times its weight `w`. */
  lemma WeightedSumStep(ds: seq<char>, ws: seq<int>, n: nat, w: int)
    requires n < |ds| == |ws| && AllDigits(ds) && ws[n] == w
    ensures WeightedSum(ds, ws, n + 1) == WeightedSum(ds, ws, n) + DigitValue(ds[n]) * w
  {
  }

  /** A two-character suffix matches exactly when the last two characters do. */
  lemma EndsWithTwo(s: seq<char>, a: char, b: char)
    requires |s| >= 2
    ensures EndsWith(s, [a, b]) <==> s[|s| - 2] == a && s[|s| - 1] == b
  {
    if s[|s| - 2] == a && s[|s| - 1] == b {
      assert s[|s| - 2..] == [a, b];
    }
  }
}

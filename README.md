# CPF check-digit validator

A Dafny model of the validator behind the `fnvalidacpf` Azure Function.
It checks a Brazilian taxpayer number (CPF, Cadastro de Pessoas Físicas).
The validator is `FnValidaCPFClass.ValidaCPF`. It takes a candidate string in any formatting and works in five steps:

1. It keeps only the digit characters, in their original order.
2. It rejects the candidate unless exactly eleven digits remain.
3. It rejects the candidate when all eleven digits are the same digit.
4. It computes two mod-11 check digits. The first uses weights 10..2 over the first nine digits. The second uses weights 11..2 over those nine digits followed by the first check digit. A remainder below 2 gives the check digit 0. Any other remainder `r` gives `11 - r`.
5. It accepts only when the digit string ends with the text of the two check digits.

Files:

- `Decimal.dfy` (module `Decimal`): ASCII digit characters and their values. It also holds the decimal rendering of a number (`resto.ToString()`) and the parsing of a digit string (`int.Parse`). The two are proved inverse to each other on numbers of any length (`ParseToDecimalString`, `ToDecimalStringOfParse` and their helper `NoLeadingZeroValue`). That is general background on `ToString()` and `int.Parse`: the validator only renders and parses single digits, and its proofs do not use these lemmas.
- `CpfValidator.dfy` (module `CpfValidator`): the specification functions and the method.
  - The functions: the digit filter `DigitsOf`, the uniform-digit test `AllSame`, `WeightedSum`, `CheckDigit`, the two check digits and the predicate `IsValidCpf`.
  - The method `ValidaCpf` follows the C# body step by step: the running sum `soma` in two `for` loops, `resto` reassigned in branches, `tempCpf` and `digito` grown by concatenation, and a final `EndsWith`.
  - `ValidaCpf` is proved to return exactly `IsValidCpf` of its input.
- `CpfProperties.dfy` (module `CpfProperties`): lemmas about the specification.
  - The filter distributes over concatenation and is idempotent.
  - The verdict ignores non-digit characters.
  - The length guard and the uniform-digit guard both reject. All ten uniform strings pass the checksum, so the guard is what rejects them.
  - The source's `EndsWith` formulation is equivalent to the position-wise definition.
  - Concrete verdicts: 52998224725 and 529.982.247-25 are accepted. 52998224726, 12345678900 and 11111111111 are rejected.

The weighted sums never go below 0, so C#'s truncating `%` and Dafny's Euclidean `%` agree on them. The largest possible sum is 9 × 65 = 585, so 32-bit `int` never overflows. The model therefore uses unbounded integers.

## Model

| member | source | states |
|---|---|---|
| `Decimal.IsDigit` | fnValidaCPF/fnValidaCPFAPI/FnValidaCPFClass.cs:54 | the characters the filter keeps are exactly the ten characters of "0123456789" (ASCII only, see Left out) |
| `Decimal.DigitValue` | fnValidaCPF/fnValidaCPFAPI/FnValidaCPFClass.cs:69 | the value of a digit character is below 10 |
| `Decimal.DigitChar` | fnValidaCPF/fnValidaCPFAPI/FnValidaCPFClass.cs:82 | the character written for a value below 10 is an ASCII digit |
| `Decimal.DigitValueOfChar` | fnValidaCPF/fnValidaCPFAPI/FnValidaCPFClass.cs:82-88 | reading the character written for a digit gives the digit back |
| `Decimal.DigitCharOfValue` | fnValidaCPF/fnValidaCPFAPI/FnValidaCPFClass.cs:82-88 | writing the value of a digit character gives the character back |
| `Decimal.ToDecimalString` | fnValidaCPF/fnValidaCPFAPI/FnValidaCPFClass.cs:82 | `ToString()` of a non-negative number is a non-empty digit string. It has no leading zero when longer than one character. It is exactly one character iff the number is below 10 |
| `Decimal.ParseDecimal` | fnValidaCPF/fnValidaCPFAPI/FnValidaCPFClass.cs:69 | `int.Parse` of a non-empty digit string of length k is below 10^k |
| `Decimal.ParseSingleDigit` | fnValidaCPF/fnValidaCPFAPI/FnValidaCPFClass.cs:69 | `int.Parse(c.ToString())` of a digit character is the digit's value |
| `Decimal.ParseToDecimalString` | fnValidaCPF/fnValidaCPFAPI/FnValidaCPFClass.cs:82-88 | parsing the rendering of any non-negative number gives the number (general background; the validator renders and parses single digits only) |
| `Decimal.ToDecimalStringOfParse` | fnValidaCPF/fnValidaCPFAPI/FnValidaCPFClass.cs:82-88 | rendering the value of a digit string without leading zeros gives the string (general background; the validator renders and parses single digits only) |
| `CpfValidator.DigitsOf` | fnValidaCPF/fnValidaCPFAPI/FnValidaCPFClass.cs:54 | the filtered string contains only digits and is no longer than the input |
| `CpfValidator.AllSame` | fnValidaCPF/fnValidaCPFAPI/FnValidaCPFClass.cs:56 | every character equals the first one iff any two characters are equal |
| `CpfValidator.WeightedSum` | fnValidaCPF/fnValidaCPFAPI/FnValidaCPFClass.cs:64-70 | the weighted digit sum over the first n positions is non-negative when those weights are |
| `CpfValidator.CheckDigit` | fnValidaCPF/fnValidaCPFAPI/FnValidaCPFClass.cs:72-80 | the digit for remainder r is a single digit. It brings r to a multiple of 11, except that remainder 1 gives 0 |
| `CpfValidator.CheckDigitUnique` | fnValidaCPF/fnValidaCPFAPI/FnValidaCPFClass.cs:72-80 | exactly one digit has that property, so `CheckDigit` is the only function meeting its contract |
| `CpfValidator.RemainderThenAdd` | fnValidaCPF/fnValidaCPFAPI/FnValidaCPFClass.cs:72-80 | proof step of `FirstCheckDigit` and `SecondCheckDigit`, not a model of a source line: adding to a sum or to the sum's remainder modulo 11 leaves the same remainder, so stating the check digit against the remainder is stating it against the sum |
| `CpfValidator.FirstCheckDigit` | fnValidaCPF/fnValidaCPFAPI/FnValidaCPFClass.cs:61-80 | the first check digit is a digit. It brings the weights-10..2 sum to a multiple of 11, or it is 0 when the sum leaves remainder 1 |
| `CpfValidator.Extended` | fnValidaCPF/fnValidaCPFAPI/FnValidaCPFClass.cs:82-83 | the base plus its first check digit is ten digits whose first nine are the base |
| `CpfValidator.SecondCheckDigit` | fnValidaCPF/fnValidaCPFAPI/FnValidaCPFClass.cs:82-99 | the same property for the weights-11..2 sum over the extended string |
| `CpfValidator.ChecksumOk` | fnValidaCPF/fnValidaCPFAPI/FnValidaCPFClass.cs:61-103 | an 11-digit string passes the checksum iff the values of its 10th and 11th digits are the first and the second check digit of its first nine |
| `CpfValidator.IsValidCpf` | fnValidaCPF/fnValidaCPFAPI/FnValidaCPFClass.cs:51-104 | the specification `ValidaCpf` is proved against: 11 digits after filtering, not all the same, checksum holds. Its own contract: a valid candidate has at least 11 characters |
| `CpfValidator.EndsWith` | fnValidaCPF/fnValidaCPFAPI/FnValidaCPFClass.cs:103 | `s` ends with `suffix` iff the suffix fits and each of its characters equals the character of `s` at the same offset from the end |
| `CpfValidator.ValidaCpf` | fnValidaCPF/fnValidaCPFAPI/FnValidaCPFClass.cs:51-104 | the method with the two accumulating loops returns exactly `IsValidCpf` of its input. Its loop invariants tie `soma` to `WeightedSum` over the positions done so far. After `tempCpf += digito`, `tempCpf` is the nine-digit base followed by the first check digit |
| `CpfValidator.WeightedSumStep` | fnValidaCPF/fnValidaCPFAPI/FnValidaCPFClass.cs:67-70 | one more position adds that digit times its weight to the prefix sum, as one loop iteration does |
| `CpfValidator.EndsWithTwo` | fnValidaCPF/fnValidaCPFAPI/FnValidaCPFClass.cs:101-103 | a string ends with a two-character suffix iff its last two characters are those two |
| `CpfProperties.DigitsOfAppend` | fnValidaCPF/fnValidaCPFAPI/FnValidaCPFClass.cs:54 | filtering a concatenation is concatenating the filtered parts |
| `CpfProperties.DigitsOfSingle` | fnValidaCPF/fnValidaCPFAPI/FnValidaCPFClass.cs:54 | a single character passes the filter iff it is a digit. With `DigitsOfAppend` this fixes the filter on every string, order included |
| `CpfProperties.DigitsOfDigits` | fnValidaCPF/fnValidaCPFAPI/FnValidaCPFClass.cs:54 | a string of digits passes the filter unchanged |
| `CpfProperties.DigitStringValidity` | fnValidaCPF/fnValidaCPFAPI/FnValidaCPFClass.cs:54-59 | a digit-only candidate is valid iff it has 11 characters, they are not all the same, and the checksum holds |
| `CpfProperties.DigitsOfIdempotent` | fnValidaCPF/fnValidaCPFAPI/FnValidaCPFClass.cs:54 | filtering twice is filtering once |
| `CpfProperties.DigitsOfDropNonDigit` | fnValidaCPF/fnValidaCPFAPI/FnValidaCPFClass.cs:54 | removing a non-digit character anywhere leaves the filtered string unchanged |
| `CpfProperties.ValidityIgnoresFormatting` | fnValidaCPF/fnValidaCPFAPI/FnValidaCPFClass.cs:54 | a candidate and its filtered string get the same verdict |
| `CpfProperties.NonDigitInsertionPreservesValidity` | fnValidaCPF/fnValidaCPFAPI/FnValidaCPFClass.cs:54 | inserting a non-digit anywhere leaves the verdict unchanged |
| `CpfProperties.WrongLengthInvalid` | fnValidaCPF/fnValidaCPFAPI/FnValidaCPFClass.cs:56-59 | a candidate whose filtered string does not have 11 digits is rejected |
| `CpfProperties.UniformInvalid` | fnValidaCPF/fnValidaCPFAPI/FnValidaCPFClass.cs:56-59 | eleven copies of any digit are rejected |
| `CpfProperties.UniformPassesChecksum` | fnValidaCPF/fnValidaCPFAPI/FnValidaCPFClass.cs:61-99 | eleven copies of any digit satisfy both check digits, so only the uniform-digit guard rejects them |
| `CpfProperties.UniformRemainders` | fnValidaCPF/fnValidaCPFAPI/FnValidaCPFClass.cs:72-99 | proof step of `UniformPassesChecksum`, not a model of a source line: for a digit v, both the uniform first sum 54v and the uniform second sum 65v, taken modulo 11 and plus v, give a multiple of 11 |
| `CpfProperties.FirstSumExpanded` | fnValidaCPF/fnValidaCPFAPI/FnValidaCPFClass.cs:61-70 | the first sum, term by term, with weights 10..2 |
| `CpfProperties.SecondSumExpanded` | fnValidaCPF/fnValidaCPFAPI/FnValidaCPFClass.cs:82-89 | the second sum, term by term, with weights 11..2, the tenth term being twice the first check digit |
| `CpfProperties.ValidIffEndsWithCheckDigits` | fnValidaCPF/fnValidaCPFAPI/FnValidaCPFClass.cs:54-103 | validity is the source's own test. The candidate has 11 digits, not all the same, and ends with `ToString` of the first check digit followed by `ToString` of the second |
| `CpfProperties.Accepts52998224725` | fnValidaCPF/fnValidaCPFAPI/FnValidaCPFClass.cs:61-103 | 52998224725 is accepted |
| `CpfProperties.Rejects52998224726` | fnValidaCPF/fnValidaCPFAPI/FnValidaCPFClass.cs:91-103 | 52998224726 is rejected |
| `CpfProperties.AcceptsFormatted` | fnValidaCPF/fnValidaCPFAPI/FnValidaCPFClass.cs:54 | 529.982.247-25 is accepted |
| `CpfProperties.Rejects12345678900` | fnValidaCPF/fnValidaCPFAPI/FnValidaCPFClass.cs:91-103 | 12345678900 is rejected |
| `CpfProperties.Rejects11111111111` | fnValidaCPF/fnValidaCPFAPI/FnValidaCPFClass.cs:56-59 | 11111111111 is rejected |
| `CpfProperties.CheckDigitsOf529982247` | fnValidaCPF/fnValidaCPFAPI/FnValidaCPFClass.cs:61-99 | the check digits of 529982247 are 2 and 5 |
| `CpfProperties.CheckDigitsOf123456789` | fnValidaCPF/fnValidaCPFAPI/FnValidaCPFClass.cs:61-99 | the check digits of 123456789 are 0 and 9 |

## Left out

- The HTTP handler `Run` (FnValidaCPFClass.cs:27-44) is not modelled. It reads the request stream asynchronously, deserialises JSON into a `dynamic` value and logs. When the body deserialises to null it answers 400 "Por favor, informe o CPF". It answers 400 "CPF inválido!" when `ValidaCPF` returns false and 200 "CPF válido!" when it returns true.
- The constructor and the `ILogger` field (FnValidaCPFClass.cs:15-20) are logging plumbing, and are not modelled.
- DigitsOf: it keeps only ASCII '0'..'9'. `char.IsDigit` at :54 also keeps the other Unicode decimal digits (Arabic-Indic, Devanagari and so on). On inputs holding such digits the model can give a different verdict from the source (a lone U+0663 gets false from both):
  - such a digit counts toward the eleven-digit length test at :56 in the source, while the model drops it. "52998224725" followed by U+0663 (ARABIC-INDIC DIGIT THREE) has 12 digits for the source, which returns false at :58, but `IsValidCpf` holds of it;
  - such a digit in the 10th or 11th position (with exactly eleven digits as the source counts them, the first nine ASCII) reaches the `EndsWith` at :103 in the source. The model's filtered string then has at most ten digits, so `IsValidCpf` rejects at the length guard. Under an ordinal comparison the source rejects too. They differ only where the culture-sensitive `EndsWith` matches the non-ASCII digit against the ASCII check digit (U+0662 against '2', say): the source then accepts and the model rejects;
  - such a digit among the first nine, once the guard at :56 has passed (exactly eleven digits as the source counts them, not all the same), makes `int.Parse` at :69 throw `FormatException` in the source, while the model gives a verdict.
- A null `cpf` is not modelled; the C# code would throw at the filter. The input is a plain `seq<char>`.
- ValidaCpf: `EndsWith` without a comparison argument is culture-sensitive in .NET. The suffix `digito` holds only ASCII digits, and so does `cpf` whenever the model reaches that comparison, so the model uses plain suffix equality (the case where the source compares a non-ASCII digit is the one listed under DigitsOf).
- ValidaCpf: the two weight arrays of FnValidaCPFClass.cs:61-62 are module constants (`Multiplicador1`, `Multiplicador2`) rather than arrays allocated on each call. They are never written.
- ParseDecimal: it requires a non-empty string of ASCII digits because both call sites (:69, :88) pass `c.ToString()` of a single digit character, so that is all the validator ever parses. The wider input `int.Parse` accepts (surrounding white space, a leading sign) and the range of `int` are not modelled.

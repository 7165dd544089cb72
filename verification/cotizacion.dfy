/** The quotation form: validators for the company name, the CUIL/CUIT tax
    identifier and the e-mail address, the CUIL input sanitiser, the change
    handlers and the form-level validity that enables printing. */
module Cotizacion {
  import opened Options
  import opened Text
  import Seqs
  import ShoppingCart

  // ---------------------------------------------------------------------
  // Company name.

  /** The failures of the company-name check, in the order it tests them. */
  datatype CompanyError = CompanyRequired | CompanyTooShort | CompanyBadChars

  predicate IsAsciiLetter(c: char) {
    ('a' <= c <= 'z') || ('A' <= c <= 'Z')
  }

  /** The character class `[a-zA-ZáéíóúÁÉÍÓÚñÑ\s&.,()-]`. */
  predicate IsCompanyChar(c: char) {
    || IsAsciiLetter(c)
    || c in "\U{E1}\U{E9}\U{ED}\U{F3}\U{FA}\U{C1}\U{C9}\U{CD}\U{D3}\U{DA}\U{F1}\U{D1}"
    || IsSpace(c)
    || c in "&.,()-"
  }

  /** The whole (untrimmed) name is one or more allowed characters. */
  predicate MatchesCompanyPattern(s: string) {
    |s| > 0 && forall i | 0 <= i < |s| :: IsCompanyChar(s[i])
  }

  /** `validateCompany`: the first failing check, or none. */
  function ValidateCompany(company: string): Option<CompanyError> {
    if Trim(company) == "" then Some(CompanyRequired)
    else if |Trim(company)| < 2 then Some(CompanyTooShort)
    else if !MatchesCompanyPattern(company) then Some(CompanyBadChars)
    else None
  }

  /** Each verdict in terms of the name itself: blank names are required;
      a name is accepted exactly when it has at least two characters
      between its first and last non-space ones (inclusive) and uses only
      allowed characters; a too-short name is never reported for its
      characters. */
  lemma CompanyVerdicts(company: string)
    ensures ValidateCompany(company) == Some(CompanyRequired) <==> Blank(company)
    ensures ValidateCompany(company) == Some(CompanyTooShort) <==> !Blank(company) && |Trim(company)| < 2
    ensures ValidateCompany(company) == None
        <==> |Trim(company)| >= 2 && forall i | 0 <= i < |company| :: IsCompanyChar(company[i])
  {
    TrimEmptyIffBlank(company);
  }

  // ---------------------------------------------------------------------
  // CUIL / CUIT.

  /** The failures of the CUIL check, in the order it tests them. */
  datatype CuilError = CuilRequired | CuilWrongLength | CuilInvalid

  /** What `cuil.replace(/[-\s]/g, '')` removes. */
  predicate IsSeparator(c: char) {
    c == '-' || IsSpace(c)
  }

  predicate IsNotSeparator(c: char) {
    !IsSeparator(c)
  }

  function StripSeparators(s: string): (r: string)
    ensures forall i | 0 <= i < |r| :: !IsSeparator(r[i])
  {
    Seqs.Filter(s, IsNotSeparator)
  }

  /** Stripping character by character: nothing from nothing, a separator
      is dropped, any other character is kept, and the result for a
      concatenation is the concatenation of the results. */
  lemma StripSeparatorsContent(a: string, c: char, b: string)
    ensures StripSeparators([]) == []
    ensures StripSeparators([c]) == if IsSeparator(c) then [] else [c]
    ensures StripSeparators(a + b) == StripSeparators(a) + StripSeparators(b)
  {
    Seqs.FilterBase(c, IsNotSeparator);
    Seqs.FilterConcat(a, b, IsNotSeparator);
  }

  /** `\d` without the `u` flag: an ASCII digit. */
  predicate IsDigit(c: char) {
    '0' <= c <= '9'
  }

  /** `Number` of one digit character. */
  function DigitValue(c: char): (v: int)
    requires IsDigit(c)
    ensures 0 <= v <= 9
    ensures "0123456789"[v] == c
  {
    c as int - '0' as int
  }

  /** `split('').map(Number)` on a string of digits. */
  function DigitValues(s: string): (d: seq<int>)
    requires forall i | 0 <= i < |s| :: IsDigit(s[i])
    ensures |d| == |s|
    ensures forall i | 0 <= i < |d| :: 0 <= d[i] <= 9
    ensures forall i | 0 <= i < |d| :: "0123456789"[d[i]] == s[i]
  {
    seq(|s|, i requires 0 <= i < |s| => DigitValue(s[i]))
  }

  const Weights: seq<int> := [5, 4, 3, 2, 7, 6, 5, 4, 3, 2]

  /** The sum of the first `n` digits times their weights. */
  function WeightedSum(d: seq<int>, n: nat): int
    requires n <= 10 <= |d|
  {
    if n == 0 then 0 else WeightedSum(d, n - 1) + d[n - 1] * Weights[n - 1]
  }

  /** The expected check digit: 0 for remainder 0, 9 for remainder 1,
      otherwise 11 minus the remainder. The sum of digits times positive
      weights is not negative, so the remainder is the same whether `%`
      truncates or not. */
  function CheckDigit(d: seq<int>): (r: int)
    requires |d| >= 10
    requires forall i | 0 <= i < |d| :: 0 <= d[i] <= 9
    ensures 0 <= r <= 9
  {
    var rest := WeightedSum(d, 10) % 11;
    if rest == 0 then 0 else if rest == 1 then 9 else 11 - rest
  }

  /** The loop of `validateCuil` that accumulates the weighted sum. */
  method ComputeCheckDigit(d: seq<int>) returns (digit: int)
    requires |d| >= 10
    requires forall i | 0 <= i < |d| :: 0 <= d[i] <= 9
    ensures digit == CheckDigit(d)
  {
    var sum := 0;
    var i := 0;
    while i < 10
      invariant 0 <= i <= 10
      invariant sum == WeightedSum(d, i)
    {
      sum := sum + d[i] * Weights[i];
      i := i + 1;
    }
    var rest := sum % 11;
    digit := if rest == 0 then 0 else if rest == 1 then 9 else 11 - rest;
  }

  /** Exactly eleven ASCII digits. */
  predicate IsElevenDigits(s: string) {
    |s| == 11 && forall i | 0 <= i < 11 :: IsDigit(s[i])
  }

  /** The check digit of eleven digits matches the last one. */
  predicate ChecksumHolds(digits: string)
    requires IsElevenDigits(digits)
  {
    var d := DigitValues(digits);
    CheckDigit(d) == d[10]
  }

  /** `validateCuil`. */
  function ValidateCuil(cuil: string): Option<CuilError> {
    if Trim(cuil) == "" then Some(CuilRequired)
    else
      var digits := StripSeparators(cuil);
      if !IsElevenDigits(digits) then Some(CuilWrongLength)
      else if !ChecksumHolds(digits) then Some(CuilInvalid)
      else None
  }

  /** A CUIL is accepted exactly when it is not blank and, without its
      hyphens and white space, is eleven digits whose check digit matches. */
  lemma CuilVerdicts(cuil: string)
    ensures ValidateCuil(cuil) == Some(CuilRequired) <==> Blank(cuil)
    ensures ValidateCuil(cuil) == Some(CuilWrongLength)
        <==> !Blank(cuil) && !IsElevenDigits(StripSeparators(cuil))
    ensures ValidateCuil(cuil) == Some(CuilInvalid)
        <==> !Blank(cuil) && IsElevenDigits(StripSeparators(cuil)) && !ChecksumHolds(StripSeparators(cuil))
    ensures ValidateCuil(cuil) == None
        <==> !Blank(cuil) && IsElevenDigits(StripSeparators(cuil)) && ChecksumHolds(StripSeparators(cuil))
  {
    TrimEmptyIffBlank(cuil);
  }

  /** Separators contribute nothing to the stripped digits. */
  lemma StripSeparatorsInsert(cuil: string, i: nat, c: char)
    requires i <= |cuil| && IsSeparator(c)
    ensures StripSeparators(cuil[..i] + [c] + cuil[i..]) == StripSeparators(cuil)
  {
    var front, back := cuil[..i], cuil[i..];
    assert Seqs.Filter([c], IsNotSeparator) == [] by {
      assert [c][1..] == [];
    }
    calc {
      StripSeparators(front + [c] + back);
      Seqs.Filter(front + [c] + back, IsNotSeparator);
      { Seqs.FilterConcat(front + [c], back, IsNotSeparator); }
      Seqs.Filter(front + [c], IsNotSeparator) + Seqs.Filter(back, IsNotSeparator);
      { Seqs.FilterConcat(front, [c], IsNotSeparator); }
      Seqs.Filter(front, IsNotSeparator) + Seqs.Filter(back, IsNotSeparator);
      { Seqs.FilterConcat(front, back, IsNotSeparator); }
      Seqs.Filter(front + back, IsNotSeparator);
      { assert front + back == cuil; }
      StripSeparators(cuil);
    }
  }

  /** Inserting a character keeps a non-blank string non-blank. */
  lemma InsertKeepsNonBlank(s: string, i: nat, c: char)
    requires i <= |s| && !Blank(s)
    ensures !Blank(s[..i] + [c] + s[i..])
  {
    var longer := s[..i] + [c] + s[i..];
    var k :| 0 <= k < |s| && !IsSpace(s[k]);
    if k < i {
      assert longer[k] == s[k];
    } else {
      assert longer[k + 1] == s[k];
    }
  }

  /** Inserting a hyphen or a white-space character anywhere leaves the
      verdict on a non-blank CUIL unchanged (and so does removing one, when
      what remains is not blank). */
  lemma CuilIgnoresSeparators(cuil: string, i: nat, c: char)
    requires i <= |cuil| && IsSeparator(c) && !Blank(cuil)
    ensures ValidateCuil(cuil[..i] + [c] + cuil[i..]) == ValidateCuil(cuil)
  {
    var longer := cuil[..i] + [c] + cuil[i..];
    StripSeparatorsInsert(cuil, i, c);
    InsertKeepsNonBlank(cuil, i, c);
    TrimEmptyIffBlank(cuil);
    TrimEmptyIffBlank(longer);
  }

  /** Eleven bare digits are judged by their check digit alone. */
  lemma BareDigitsVerdict(digits: string)
    requires IsElevenDigits(digits)
    ensures ValidateCuil(digits) == if ChecksumHolds(digits) then None else Some(CuilInvalid)
  {
    Seqs.FilterKeepsAll(digits, IsNotSeparator);
    TrimEmptyIffBlank(digits);
    assert !IsSpace(digits[0]);
  }

  /** The CUIL written as `xx-xxxxxxxx-x` gets the verdict of its digits. */
  lemma HyphenatedVerdict(digits: string)
    requires IsElevenDigits(digits)
    ensures ValidateCuil(digits[..2] + "-" + digits[2..10] + "-" + digits[10..]) == ValidateCuil(digits)
  {
    var once := digits[..2] + "-" + digits[2..];
    var twice := once[..11] + "-" + once[11..];
    assert twice == digits[..2] + "-" + digits[2..10] + "-" + digits[10..] by {
      assert once[..11] == digits[..2] + "-" + digits[2..10];
      assert once[11..] == digits[10..];
    }
    assert !IsSpace(digits[0]);
    CuilIgnoresSeparators(digits, 2, '-');
    InsertKeepsNonBlank(digits, 2, '-');
    CuilIgnoresSeparators(once, 11, '-');
  }

  /** Weighted sums 148 (remainder 5, so 6 expected) and 12 (remainder 1,
      so 9 expected). */
  lemma ChecksumExamples()
    ensures ChecksumHolds("20123456786")
    ensures !ChecksumHolds("20123456789")
    ensures ChecksumHolds("20000000019")
  {
    var d := DigitValues("20123456786");
    assert d[0] == 2 && d[1] == 0 && d[2] == 1 && d[3] == 2 && d[4] == 3 && d[5] == 4;
    assert d[6] == 5 && d[7] == 6 && d[8] == 7 && d[9] == 8 && d[10] == 6;
    assert WeightedSum(d, 10) == 148;
    var e := DigitValues("20123456789");
    assert e[0] == 2 && e[1] == 0 && e[2] == 1 && e[3] == 2 && e[4] == 3 && e[5] == 4;
    assert e[6] == 5 && e[7] == 6 && e[8] == 7 && e[9] == 8 && e[10] == 9;
    assert WeightedSum(e, 10) == 148;
    var f := DigitValues("20000000019");
    assert f[0] == 2 && f[1] == 0 && f[2] == 0 && f[3] == 0 && f[4] == 0 && f[5] == 0;
    assert f[6] == 0 && f[7] == 0 && f[8] == 0 && f[9] == 1 && f[10] == 9;
    assert WeightedSum(f, 10) == 12;
  }

  /** A known-valid identifier passes; the same with its check digit
      altered fails the checksum. (Written with hyphens the verdicts are
      the same, by `HyphenatedVerdict`.) */
  lemma CuilValidAndAlteredExample(valid: string, altered: string)
    requires valid == "20123456786" && altered == "20123456789"
    ensures ValidateCuil(valid) == None
    ensures ValidateCuil(altered) == Some(CuilInvalid)
  {
    ChecksumExamples();
    assert IsElevenDigits(valid) && IsElevenDigits(altered);
    BareDigitsVerdict(valid);
    BareDigitsVerdict(altered);
  }

  /** Remainder 1 expects the check digit 9. */
  lemma CuilRemainderOneExample(cuil: string)
    requires cuil == "20000000019"
    ensures ValidateCuil(cuil) == None
  {
    ChecksumExamples();
    assert IsElevenDigits(cuil);
    BareDigitsVerdict(cuil);
  }

  /** Ten digits are too few, whatever they are. */
  lemma TenDigitsVerdict(short: string)
    requires |short| == 10 && forall i | 0 <= i < |short| :: IsDigit(short[i])
    ensures ValidateCuil(short) == Some(CuilWrongLength)
  {
    Seqs.FilterKeepsAll(short, IsNotSeparator);
    TrimEmptyIffBlank(short);
    assert !IsSpace(short[0]);
  }

  /** White space alone is a missing entry. */
  lemma CuilBlankExample(blank: string)
    requires blank == "  "
    ensures ValidateCuil(blank) == Some(CuilRequired)
  {
    TrimEmptyIffBlank(blank);
  }

  // ---------------------------------------------------------------------
  // E-mail.

  /** The failures of the e-mail check, in the order it tests them. */
  datatype EmailError = EmailRequired | EmailInvalid

  /** One or more characters of the class `[^\s@]`. */
  predicate EmailPart(s: string) {
    |s| > 0 && forall i | 0 <= i < |s| :: !IsSpace(s[i]) && s[i] != '@'
  }

  /** `/^[^\s@]+@[^\s@]+\.[^\s@]+$/`: the string splits at an `@` and at a
      later `.` into three parts of that class. */
  predicate MatchesEmailPattern(s: string) {
    exists a, b | 0 <= a < b < |s| ::
      s[a] == '@' && s[b] == '.' && EmailPart(s[..a]) && EmailPart(s[a + 1..b]) && EmailPart(s[b + 1..])
  }

  /** `validateEmail`. */
  function ValidateEmail(email: string): Option<EmailError> {
    if Trim(email) == "" then Some(EmailRequired)
    else if !MatchesEmailPattern(email) then Some(EmailInvalid)
    else None
  }

  predicate NoSpace(s: string) {
    forall i | 0 <= i < |s| :: !IsSpace(s[i])
  }

  /** `s[a]` is the only `@` of `s`. */
  predicate OnlyAt(s: string, a: int) {
    0 <= a < |s| && s[a] == '@' && forall k | 0 <= k < |s| && k != a :: s[k] != '@'
  }

  /** A `.` lies after `s[a]` with at least one character on each side. */
  predicate DotAfter(s: string, a: int) {
    exists b | 0 <= a + 1 < b < |s| - 1 :: s[b] == '.'
  }

  /** The three parts of a match hold neither white space nor another `@`. */
  lemma MatchShape(s: string, a: int, b: int)
    requires 0 <= a < b < |s| && s[a] == '@' && s[b] == '.'
    requires EmailPart(s[..a]) && EmailPart(s[a + 1..b]) && EmailPart(s[b + 1..])
    ensures NoSpace(s) && OnlyAt(s, a) && DotAfter(s, a)
  {
    forall k | 0 <= k < |s| && k != a ensures !IsSpace(s[k]) && s[k] != '@' {
      if k < a {
        assert s[k] == s[..a][k];
      } else if k < b {
        assert s[k] == s[a + 1..b][k - a - 1];
      } else if k > b {
        assert s[k] == s[b + 1..][k - b - 1];
      }
    }
  }

  /** A string of that shape splits into the three parts of the pattern. */
  lemma ShapeMatches(s: string, a: int)
    requires 0 < a < |s| && NoSpace(s) && OnlyAt(s, a) && DotAfter(s, a)
    ensures MatchesEmailPattern(s)
  {
    var b :| a + 1 < b < |s| - 1 && s[b] == '.';
    assert EmailPart(s[..a]);
    assert EmailPart(s[a + 1..b]);
    assert EmailPart(s[b + 1..]);
  }

  /** The pattern in plain terms: no white space, exactly one `@`, not
      first, and a `.` after it with characters on both sides. */
  lemma EmailPatternShape(s: string)
    ensures MatchesEmailPattern(s) <==> NoSpace(s) && exists a | 0 < a < |s| :: OnlyAt(s, a) && DotAfter(s, a)
  {
    if MatchesEmailPattern(s) {
      var a, b :| 0 <= a < b < |s| && s[a] == '@' && s[b] == '.'
        && EmailPart(s[..a]) && EmailPart(s[a + 1..b]) && EmailPart(s[b + 1..]);
      MatchShape(s, a, b);
    }
    if NoSpace(s) && exists a | 0 < a < |s| :: OnlyAt(s, a) && DotAfter(s, a) {
      var a :| 0 < a < |s| && OnlyAt(s, a) && DotAfter(s, a);
      ShapeMatches(s, a);
    }
  }

  /** A matching address contains a `.` and no white space. */
  lemma PatternNeedsDotNoSpace(s: string)
    requires MatchesEmailPattern(s)
    ensures '.' in s
    ensures forall i | 0 <= i < |s| :: !IsSpace(s[i])
  {
    EmailPatternShape(s);
  }

  /** A non-blank address is judged by the pattern alone. */
  /** Each e-mail verdict in terms of the address itself. */
  lemma EmailVerdicts(email: string)
    ensures ValidateEmail(email) == Some(EmailRequired) <==> Blank(email)
    ensures ValidateEmail(email) == Some(EmailInvalid) <==> !Blank(email) && !MatchesEmailPattern(email)
    ensures ValidateEmail(email) == None <==> !Blank(email) && MatchesEmailPattern(email)
  {
    TrimEmptyIffBlank(email);
  }

  lemma EmailAcceptedExample(email: string)
    requires email == "ejemplo@empresa.com"
    ensures ValidateEmail(email) == None
  {
    assert email[..7] == "ejemplo" && email[8..15] == "empresa" && email[16..] == "com";
    assert EmailPart(email[..7]) && EmailPart(email[8..15]) && EmailPart(email[16..]);
    assert email[7] == '@' && email[15] == '.';
    assert !IsSpace(email[0]);
    EmailVerdicts(email);
  }

  lemma EmailWithoutDotExample(email: string)
    requires email == "ejemplo@empresa"
    ensures ValidateEmail(email) == Some(EmailInvalid)
  {
    if MatchesEmailPattern(email) {
      PatternNeedsDotNoSpace(email);
    }
    assert !IsSpace(email[0]);
    EmailVerdicts(email);
  }

  lemma EmailWithSpaceExample(email: string)
    requires email == "ejemplo empresa.com"
    ensures ValidateEmail(email) == Some(EmailInvalid)
  {
    if MatchesEmailPattern(email) {
      PatternNeedsDotNoSpace(email);
      assert IsSpace(email[7]);
    }
    assert !IsSpace(email[0]);
    EmailVerdicts(email);
  }

  // ---------------------------------------------------------------------
  // CUIL input sanitiser.

  /** What `value.replace(/[^0-9-\s]/g, '')` keeps. */
  predicate IsCuilInputChar(c: char) {
    IsDigit(c) || c == '-' || IsSpace(c)
  }

  /** Keeps the digits, hyphens and white space of the input, in order. */
  function SanitizeCuil(value: string): (r: string)
    ensures forall i | 0 <= i < |r| :: IsCuilInputChar(r[i])
    ensures forall i | 0 <= i < |value| && IsCuilInputChar(value[i]) :: value[i] in r
    ensures |r| <= |value|
  {
    Seqs.Filter(value, IsCuilInputChar)
  }

  /** Sanitising character by character: nothing from nothing, a digit,
      hyphen or white-space character is kept, any other is dropped, and
      the result for a concatenation is the concatenation of the results. */
  lemma SanitizeCuilContent(a: string, c: char, b: string)
    ensures SanitizeCuil([]) == []
    ensures SanitizeCuil([c]) == if IsCuilInputChar(c) then [c] else []
    ensures SanitizeCuil(a + b) == SanitizeCuil(a) + SanitizeCuil(b)
  {
    Seqs.FilterBase(c, IsCuilInputChar);
    Seqs.FilterConcat(a, b, IsCuilInputChar);
  }

  /** Sanitising twice is sanitising once, and input made only of digits,
      hyphens and white space passes unchanged. */
  lemma SanitizeCuilIdempotent(value: string)
    ensures SanitizeCuil(SanitizeCuil(value)) == SanitizeCuil(value)
    ensures (forall i | 0 <= i < |value| :: IsCuilInputChar(value[i])) ==> SanitizeCuil(value) == value
  {
    Seqs.FilterKeepsAll(SanitizeCuil(value), IsCuilInputChar);
    if forall i | 0 <= i < |value| :: IsCuilInputChar(value[i]) {
      Seqs.FilterKeepsAll(value, IsCuilInputChar);
    }
  }

  // ---------------------------------------------------------------------
  // Form state and validity.

  datatype Form = Form(company: string, cuil: string, email: string)

  datatype FormErrors = FormErrors(company: Option<CompanyError>, cuil: Option<CuilError>, email: Option<EmailError>)

  datatype Quote = Quote(form: Form, errors: FormErrors)

  /** The form starts empty and shows no error. */
  const InitialQuote := Quote(Form("", "", ""), FormErrors(None, None, None))

  function HandleCompanyChange(q: Quote, value: string): Quote {
    Quote(q.form.(company := value), q.errors.(company := ValidateCompany(value)))
  }

  /** `handleCuilChange`: stores and validates the sanitised value. */
  function HandleCuilChange(q: Quote, value: string): Quote {
    var clean := SanitizeCuil(value);
    Quote(q.form.(cuil := clean), q.errors.(cuil := ValidateCuil(clean)))
  }

  function HandleEmailChange(q: Quote, value: string): Quote {
    Quote(q.form.(email := value), q.errors.(email := ValidateEmail(value)))
  }

  /** `isFormValid`: the button is enabled from the form itself, not from
      the shown errors. */
  predicate IsFormValid(form: Form, cartItems: seq<ShoppingCart.CartItem>) {
    && ValidateCompany(form.company).None?
    && ValidateCuil(form.cuil).None?
    && ValidateEmail(form.email).None?
    && |cartItems| > 0
  }

  /** The form is valid exactly when each field meets its rule in plain
      terms and the cart holds an item; an empty cart disables it whatever
      the fields hold. */
  lemma FormValidity(form: Form, cartItems: seq<ShoppingCart.CartItem>)
    ensures IsFormValid(form, cartItems) <==>
      && |Trim(form.company)| >= 2
      && (forall i | 0 <= i < |form.company| :: IsCompanyChar(form.company[i]))
      && !Blank(form.cuil)
      && IsElevenDigits(StripSeparators(form.cuil))
      && ChecksumHolds(StripSeparators(form.cuil))
      && NoSpace(form.email)
      && (exists a | 0 < a < |form.email| :: OnlyAt(form.email, a) && DotAfter(form.email, a))
      && |cartItems| > 0
  {
    CompanyVerdicts(form.company);
    CuilVerdicts(form.cuil);
    EmailPatternShape(form.email);
    if MatchesEmailPattern(form.email) {
      TrimEmptyIffBlank(form.email);
      assert form.email[0] == form.email[..1][0];
    }
  }

  /** The shown errors agree with the stored values. */
  predicate ErrorsCurrent(q: Quote) {
    q.errors == FormErrors(ValidateCompany(q.form.company), ValidateCuil(q.form.cuil), ValidateEmail(q.form.email))
  }

  /** The empty form shows no error, although every field would be
      reported as required, and it cannot be submitted whatever the cart
      holds. */
  lemma InitialQuoteShowsNoErrors(cartItems: seq<ShoppingCart.CartItem>)
    ensures InitialQuote.errors == FormErrors(None, None, None)
    ensures !ErrorsCurrent(InitialQuote)
    ensures ValidateCompany(InitialQuote.form.company) == Some(CompanyRequired)
    ensures ValidateCuil(InitialQuote.form.cuil) == Some(CuilRequired)
    ensures ValidateEmail(InitialQuote.form.email) == Some(EmailRequired)
    ensures !IsFormValid(InitialQuote.form, cartItems)
  {
    var empty := InitialQuote.form.company;
    assert empty == "" && InitialQuote.form.cuil == empty && InitialQuote.form.email == empty;
    CompanyVerdicts(empty);
    CuilVerdicts(empty);
    EmailVerdicts(empty);
  }

  /** Each handler stores its field (the CUIL sanitised) and shows that
      field's verdict, touching neither other field nor its error; once
      every field has been edited the errors are current, and stay so. */
  lemma HandlersKeepErrorsCurrent(q: Quote, company: string, cuil: string, email: string)
    ensures HandleCompanyChange(q, company).form == q.form.(company := company)
    ensures HandleCompanyChange(q, company).errors.cuil == q.errors.cuil
    ensures HandleCompanyChange(q, company).errors.email == q.errors.email
    ensures HandleCuilChange(q, cuil).form.company == q.form.company
    ensures HandleCuilChange(q, cuil).form.email == q.form.email
    ensures HandleCuilChange(q, cuil).errors.company == q.errors.company
    ensures HandleCuilChange(q, cuil).errors.email == q.errors.email
    ensures HandleEmailChange(q, email).form == q.form.(email := email)
    ensures HandleEmailChange(q, email).errors.company == q.errors.company
    ensures HandleEmailChange(q, email).errors.cuil == q.errors.cuil
    ensures HandleCuilChange(q, cuil).form.cuil == SanitizeCuil(cuil)
    ensures forall i | 0 <= i < |HandleCuilChange(q, cuil).form.cuil| ::
              IsCuilInputChar(HandleCuilChange(q, cuil).form.cuil[i])
    ensures ErrorsCurrent(HandleEmailChange(HandleCuilChange(HandleCompanyChange(q, company), cuil), email))
    ensures ErrorsCurrent(q) ==> ErrorsCurrent(HandleCompanyChange(q, company))
    ensures ErrorsCurrent(q) ==> ErrorsCurrent(HandleCuilChange(q, cuil))
    ensures ErrorsCurrent(q) ==> ErrorsCurrent(HandleEmailChange(q, email))
  {
  }
}

/**
  * The field validators that guard a new customer record
  * (the nested `validate_*` functions of `add_customer`).
  * A pattern `^P$` passed to `re.match` is modelled as: the whole string
  * matches P, or everything but a final "\n" does, since Python's `$`
  * also matches just before a trailing newline.
  */
module Validators {
  import opened Wrappers
  import opened Text

  /** Python's `re.match(r"^P$", s)` given a predicate `core` for "s matches P". */
  predicate MatchesToEnd(core: string -> bool, s: string) {
    core(s) || (|s| > 0 && s[|s| - 1] == '\n' && core(s[..|s| - 1]))
  }

  /** On input that went through `strip()` the trailing-newline case cannot arise. */
  lemma MatchesToEndStripped(core: string -> bool, s: string)
    requires Strip(s) == s
    ensures MatchesToEnd(core, s) <==> core(s)
  {
    StripShape(s);
  }

  // ------------------------------------------------------- name, city, state

  predicate InNameClass(c: char) { IsAsciiLetter(c) || IsSpace(c) || c == '\'' || c == '-' }

  /** `[A-Za-z\s'-]+` */
  predicate NameChars(s: string) { |s| > 0 && forall i :: 0 <= i < |s| ==> InNameClass(s[i]) }

  predicate HasDigit(s: string) { exists i :: 0 <= i < |s| && IsDigit(s[i]) }

  /** `validate_name` */
  predicate ValidName(s: string) {
    MatchesToEnd(NameChars, s) && !HasDigit(s)
  }

  /** `[A-Za-z\s]+` */
  predicate CityStateChars(s: string) { |s| > 0 && forall i :: 0 <= i < |s| ==> IsAsciiLetter(s[i]) || IsSpace(s[i]) }

  /** `validate_city_state` */
  predicate ValidCityState(s: string) {
    MatchesToEnd(CityStateChars, s) && !HasDigit(s)
  }

  /** A name is accepted exactly when it is a non-empty run of letters, whitespace,
      apostrophes and hyphens: the digit test and the newline rule add nothing. */
  lemma ValidNameChars(s: string)
    ensures ValidName(s) <==> NameChars(s)
  {
    if |s| > 0 && s[|s| - 1] == '\n' && NameChars(s[..|s| - 1]) {
      assert forall i :: 0 <= i < |s| - 1 ==> s[i] == s[..|s| - 1][i];
    }
  }

  /** Every acceptable city or state would also be an acceptable name. */
  lemma CityStateIsName(s: string)
    requires ValidCityState(s)
    ensures ValidName(s)
  {
  }

  // ---------------------------------------------------------- gender, type

  /** `validate_gender` */
  predicate ValidGender(s: string) { Lower(s) == "m" || Lower(s) == "f" }

  lemma GenderLetters(s: string)
    ensures ValidGender(s) <==> s == "m" || s == "M" || s == "f" || s == "F"
  {
    if |s| == 1 {
      assert Lower(s) == [LowerChar(s[0])];
      assert s == [s[0]];
    } else {
      assert |Lower(s)| != 1;
    }
  }

  /** `validate_account_type` */
  predicate ValidAccountType(s: string) {
    Lower(s) == "savings" || Lower(s) == "current" || Lower(s) == "fixed deposit"
  }

  /** The account-type test ignores case: a string and its lower-case form agree. */
  lemma AccountTypeIgnoresCase(s: string)
    ensures ValidAccountType(s) <==> ValidAccountType(Lower(s))
  {
    assert Lower(Lower(s)) == Lower(s);
  }

  /** The three account types are accepted in any case; a prefix is not. */
  lemma AccountTypeExamples()
    ensures ValidAccountType("Savings") && ValidAccountType("FIXED DEPOSIT") && ValidAccountType("current")
    ensures !ValidAccountType("Fixed")
  {
    assert Lower("Savings") == "savings";
    assert Lower("FIXED DEPOSIT") == "fixed deposit";
    assert Lower("current") == "current";
    assert |Lower("Fixed")| == 5;
  }

  // ------------------------------------------------------------------- dates

  datatype Date = Date(year: int, month: int, day: int)

  /** The date-of-birth check measures age on this fixed day, 11 October 2025. */
  const Today := Date(2025, 10, 11)

  /** Gregorian leap years, as `calendar.isleap`. */
  predicate IsLeapYear(y: int) { y % 4 == 0 && (y % 100 != 0 || y % 400 == 0) }

  /** `calendar.monthrange(y, m)[1]` */
  function DaysInMonth(y: int, m: int): int
    requires 1 <= m <= 12
  {
    if m == 2 then (if IsLeapYear(y) then 29 else 28)
    else if m == 4 || m == 6 || m == 9 || m == 11 then 30
    else 31
  }

  predicate IsCalendarDate(d: Date) {
    1 <= d.month <= 12 && 1 <= d.day <= DaysInMonth(d.year, d.month)
  }

  /** Python's tuple comparison `(a1, a2) < (b1, b2)`. */
  predicate PairLess(a1: int, a2: int, b1: int, b2: int) { a1 < b1 || (a1 == b1 && a2 < b2) }

  /** Completed years between `born` and `today`. */
  function AgeOn(today: Date, born: Date): int {
    today.year - born.year - (if PairLess(today.month, today.day, born.month, born.day) then 1 else 0)
  }

  /** `validate_date_of_birth` on the date `strptime` produced. */
  predicate ValidDateOfBirth(born: Date) {
    IsCalendarDate(born) && born.year < Today.year && AgeOn(Today, born) > 18
  }

  /** The accepted birth dates are exactly the calendar dates on or before 11 October 2006. */
  lemma DateOfBirthCutoff(born: Date)
    ensures ValidDateOfBirth(born) <==>
      IsCalendarDate(born) && (born.year < 2006 || (born.year == 2006 && !PairLess(10, 11, born.month, born.day)))
  {
  }

  /** Someone who turned exactly 18 on or before today is still rejected. */
  lemma ExactlyEighteenRejected(born: Date)
    requires AgeOn(Today, born) == 18
    ensures !ValidDateOfBirth(born)
  {
  }

  /** 29 February is a valid day exactly in leap years. */
  lemma LeapDay(y: int)
    ensures IsCalendarDate(Date(y, 2, 29)) <==> IsLeapYear(y)
  {
  }

  // ------------------------------------------------------ phone, branch code

  predicate TenDigits(s: string) { |s| == 10 && AllDigits(s) }

  /** `validate_phone_number`: `^\d{10}$` */
  predicate ValidPhoneNumber(s: string) { MatchesToEnd(TenDigits, s) }

  predicate BranchCodeChars(s: string) { |s| == 5 && s[..2] == "BR" && AllDigits(s[2..]) }

  /** `validate_branch_code`: `^BR\d{3}$` */
  predicate ValidBranchCode(s: string) { MatchesToEnd(BranchCodeChars, s) }

  /** On stripped input a phone number is accepted iff it is exactly ten digits. */
  lemma PhoneNumberStripped(s: string)
    requires Strip(s) == s
    ensures ValidPhoneNumber(s) <==> |s| == 10 && AllDigits(s)
  {
    MatchesToEndStripped(TenDigits, s);
  }

  /** Unstripped, `$` lets a final newline through: ten digits and "\n" pass. */
  lemma PhoneNumberTrailingNewline(s: string)
    requires |s| == 10 && AllDigits(s)
    ensures ValidPhoneNumber(s + "\n")
  {
    assert (s + "\n")[..10] == s;
  }

  /** On stripped input a branch code is accepted iff it is `B`, `R` and three digits. */
  lemma BranchCodeStripped(s: string)
    requires Strip(s) == s
    ensures ValidBranchCode(s) <==>
      |s| == 5 && s[0] == 'B' && s[1] == 'R' && IsDigit(s[2]) && IsDigit(s[3]) && IsDigit(s[4])
  {
    MatchesToEndStripped(BranchCodeChars, s);
    if |s| == 5 {
      assert s[..2] == "BR" <==> s[0] == 'B' && s[1] == 'R';
      assert AllDigits(s[2..]) <==> IsDigit(s[2]) && IsDigit(s[3]) && IsDigit(s[4]) by {
        assert s[2..][0] == s[2] && s[2..][1] == s[3] && s[2..][2] == s[4];
      }
    }
  }

  // ------------------------------------------------------------------ e-mail

  /** `[\w.-]` */
  predicate InEmailClass(c: char) { IsWordChar(c) || c == '.' || c == '-' }

  predicate AllEmailClass(s: string) { forall i :: 0 <= i < |s| ==> InEmailClass(s[i]) }

  predicate AllWordChars(s: string) { forall i :: 0 <= i < |s| ==> IsWordChar(s[i]) }

  /** `[\w.-]+\.\w+` split at position `k` of the dot. */
  predicate DomainSplitAt(d: string, k: int)
    requires 0 <= k < |d|
  {
    d[k] == '.' && AllEmailClass(d[..k]) && AllWordChars(d[k + 1..])
  }

  /** The part after `@` matches `[\w.-]+\.\w+` for some choice of the dot. */
  predicate DomainMatches(d: string) {
    exists k :: 0 < k < |d| - 1 && DomainSplitAt(d, k)
  }

  predicate EmailSplitAt(s: string, at: int)
    requires 0 <= at < |s|
  {
    s[at] == '@' && |s[..at]| > 0 && AllEmailClass(s[..at]) && DomainMatches(s[at + 1..])
  }

  /** `[\w.-]+@[\w.-]+\.\w+` */
  predicate EmailChars(s: string) {
    exists at :: 0 <= at < |s| && EmailSplitAt(s, at)
  }

  /** `validate_email` */
  predicate ValidEmail(s: string) { MatchesToEnd(EmailChars, s) }

  /** Position of the last occurrence of `c`, or -1. */
  function LastIndexOf(s: string, c: char): (k: int)
    ensures -1 <= k < |s|
    ensures k >= 0 ==> s[k] == c
    ensures forall i :: k < i < |s| ==> s[i] != c
  {
    if s == [] then -1
    else if s[|s| - 1] == c then |s| - 1
    else LastIndexOf(s[..|s| - 1], c)
  }

  /** A dot followed only by word characters is the last dot. */
  lemma SplitIsLastDot(d: string, k: int)
    requires 0 <= k < |d| && DomainSplitAt(d, k)
    ensures LastIndexOf(d, '.') == k
  {
    forall i | k < i < |d|
      ensures d[i] != '.'
    {
      assert d[i] == d[k + 1..][i - k - 1];
    }
  }

  /** The deterministic reading of the domain pattern: split at the last dot. */
  predicate SplitAtLastDot(d: string) {
    var k := LastIndexOf(d, '.');
    0 < k < |d| - 1 && DomainSplitAt(d, k)
  }

  /** The regex's backtracking settles on the LAST dot: the domain matches iff
      its last dot has at least one character before it, at least one after it,
      everything before it is in `[\w.-]` and everything after it is in `\w`. */
  lemma DomainAtLastDot(d: string)
    ensures DomainMatches(d) <==> SplitAtLastDot(d)
  {
    if DomainMatches(d) {
      var k :| 0 < k < |d| - 1 && DomainSplitAt(d, k);
      SplitIsLastDot(d, k);
    }
  }

  /** An accepted address holds exactly one `@`, and it is not the first character. */
  lemma EmailSingleAt(s: string, i: int, j: int)
    requires EmailChars(s)
    requires 0 <= i < |s| && 0 <= j < |s| && s[i] == '@' && s[j] == '@'
    ensures i == j && i > 0
  {
    var at :| 0 <= at < |s| && EmailSplitAt(s, at);
    var d := s[at + 1..];
    var k :| 0 < k < |d| - 1 && DomainSplitAt(d, k);
    forall n | 0 <= n < |s| && n != at
      ensures s[n] != '@'
    {
      if n < at {
        assert s[..at][n] == s[n];
      } else if n < at + 1 + k {
        assert d[..k][n - at - 1] == s[n];
      } else if n > at + 1 + k {
        assert d[k + 1..][n - at - 2 - k] == s[n];
      }
    }
  }

  /** An address with a dotted domain is accepted. */
  lemma EmailAccepted()
    ensures ValidEmail("user@example.com")
  {
    var good := "user@example.com";
    assert good[5..] == "example.com";
    assert DomainSplitAt(good[5..], 7);
    assert EmailSplitAt(good, 4);
  }

  /** A domain with no dot at all cannot match `[\w.-]+\.\w+`. */
  lemma DotlessDomain(d: string)
    requires forall k :: 0 <= k < |d| ==> d[k] != '.'
    ensures !DomainMatches(d)
  {
  }

  /** A domain without a dot is rejected. */
  lemma EmailRejected()
    ensures !ValidEmail("user@example")
  {
    var bad := "user@example";
    assert bad[|bad| - 1] != '\n';
    forall at | 0 <= at < |bad|
      ensures !EmailSplitAt(bad, at)
    {
      if bad[at] == '@' {
        assert at == 4;
        assert bad[at + 1..] == "example";
        DotlessDomain(bad[at + 1..]);
      }
    }
  }

  // ----------------------------------------------------------------- balance

  /** `validate_account_balance`: `float(value) >= 0`, where `parseFloat`
      stands for `float()` and None for the ValueError it raises. */
  predicate ValidAccountBalance(parseFloat: string -> Option<real>, s: string) {
    match parseFloat(s)
    case None => false
    case Some(b) => b >= 0.0
  }

  /** `validate_date_of_birth` on text: `parseDate` stands for `strptime(value, '%Y-%m-%d')`. */
  predicate ValidDateOfBirthText(parseDate: string -> Option<Date>, s: string) {
    match parseDate(s)
    case None => false
    case Some(d) => ValidDateOfBirth(d)
  }

  // ---------------------------------------------------------------- dispatch

  /** The two library parsers the validators call and this model does not define. */
  datatype Parsers = Parsers(parseDate: string -> Option<Date>, parseFloat: string -> Option<real>)

  const ValidatedFields: set<string> :=
    {"name", "gender", "date_of_birth", "city", "state", "phone_number", "email",
     "branch_code", "account_type", "account_balance"}

  /** `field_validators.get(key, (lambda x: True, ...))` applied to `value`. */
  predicate FieldValid(p: Parsers, key: string, value: string) {
    if key == "name" then ValidName(value)
    else if key == "gender" then ValidGender(value)
    else if key == "date_of_birth" then ValidDateOfBirthText(p.parseDate, value)
    else if key == "city" || key == "state" then ValidCityState(value)
    else if key == "phone_number" then ValidPhoneNumber(value)
    else if key == "email" then ValidEmail(value)
    else if key == "branch_code" then ValidBranchCode(value)
    else if key == "account_type" then ValidAccountType(value)
    else if key == "account_balance" then ValidAccountBalance(p.parseFloat, value)
    else true
  }

  /** A field without a validator accepts any value. */
  lemma UnvalidatedFieldAcceptsAll(p: Parsers, key: string, value: string)
    requires key !in ValidatedFields
    ensures FieldValid(p, key, value)
  {
  }
}

/**
 * The signup form's value record and its validation schema: one rule per
 * field, composed into the whole-form error map that the form library keeps.
 */
module Schema {
  import opened Wrappers

  /** The nine form fields, named as in the form's initial values. */
  datatype Field = Name | Email | Phone | College | Degree | Stream | Year | BirthDate | Password

  const ALL_FIELDS: set<Field> := {Name, Email, Phone, College, Degree, Stream, Year, BirthDate, Password}

  lemma AllFieldsComplete(f: Field)
    ensures f in ALL_FIELDS
  {
  }

  /** The form's values: every field holds a string. */
  datatype Values = Values(
    name: string, email: string, phone: string, college: string, degree: string,
    stream: string, year: string, birthDate: string, password: string)

  /** The form's initial values: every field is the empty string. */
  const INITIAL_VALUES: Values := Values("", "", "", "", "", "", "", "", "")

  function Get(v: Values, f: Field): string {
    match f
    case Name => v.name
    case Email => v.email
    case Phone => v.phone
    case College => v.college
    case Degree => v.degree
    case Stream => v.stream
    case Year => v.year
    case BirthDate => v.birthDate
    case Password => v.password
  }

  /** Sets one field; every other field keeps its value. */
  function With(v: Values, f: Field, s: string): (r: Values)
    ensures Get(r, f) == s
    ensures forall g :: g != f ==> Get(r, g) == Get(v, g)
  {
    match f
    case Name => v.(name := s)
    case Email => v.(email := s)
    case Phone => v.(phone := s)
    case College => v.(college := s)
    case Degree => v.(degree := s)
    case Stream => v.(stream := s)
    case Year => v.(year := s)
    case BirthDate => v.(birthDate := s)
    case Password => v.(password := s)
  }

  lemma InitialValuesEmpty(f: Field)
    ensures Get(INITIAL_VALUES, f) == ""
  {
  }

  // ---------------------------------------------------------------------------
  // The phone pattern /^[6-9]\d{9}$/: an anchored sequence of single-character
  // classes. `\d` without the Unicode flag is the ASCII range 0-9, and `$`
  // without the multiline flag matches only at the end of the input.

  datatype CharClass = Range(lo: char, hi: char)

  predicate InClass(c: CharClass, ch: char) {
    c.lo <= ch <= c.hi
  }

  const DIGIT: CharClass := Range('0', '9')

  /** The phone pattern: one character in 6-9 followed by nine digits. */
  const PHONE_PATTERN: seq<CharClass> := [Range('6', '9')] + seq(9, _ => DIGIT)

  /** Anchored match of a sequence of character classes against the whole string. */
  predicate Matches(pattern: seq<CharClass>, s: string) {
    if pattern == [] then s == []
    else s != [] && InClass(pattern[0], s[0]) && Matches(pattern[1..], s[1..])
  }

  lemma {:induction false} MatchesExactly(pattern: seq<CharClass>, s: string)
    ensures Matches(pattern, s) <==>
      |s| == |pattern| && forall i :: 0 <= i < |s| ==> InClass(pattern[i], s[i])
  {
    if pattern != [] && s != [] {
      MatchesExactly(pattern[1..], s[1..]);
      if |s| == |pattern| && forall i :: 0 <= i < |s| ==> InClass(pattern[i], s[i]) {
        forall i | 0 <= i < |s| - 1 ensures InClass(pattern[1..][i], s[1..][i]) {
          assert InClass(pattern[i + 1], s[i + 1]);
        }
      }
      if Matches(pattern, s) {
        forall i | 0 <= i < |s| ensures InClass(pattern[i], s[i]) {
          if i > 0 { assert InClass(pattern[1..][i - 1], s[1..][i - 1]); }
        }
      }
    }
  }

  predicate IsAsciiDigit(ch: char) {
    '0' <= ch <= '9'
  }

  /**
   * The phone pattern accepts exactly the ten-character strings of ASCII
   * digits whose first digit is 6, 7, 8 or 9.
   */
  lemma PhonePatternMeaning(s: string)
    ensures Matches(PHONE_PATTERN, s) <==>
      |s| == 10 && '6' <= s[0] <= '9' && forall i :: 1 <= i < 10 ==> IsAsciiDigit(s[i])
  {
    MatchesExactly(PHONE_PATTERN, s);
    if |s| == 10 {
      assert forall i :: 1 <= i < 10 ==> PHONE_PATTERN[i] == DIGIT;
    }
  }

  lemma PhoneExamples()
    ensures Matches(PHONE_PATTERN, "9876543210")
    ensures !Matches(PHONE_PATTERN, "1234567890")
    ensures !Matches(PHONE_PATTERN, "98765432")
  {
    PhonePatternMeaning("9876543210");
    PhonePatternMeaning("1234567890");
    PhonePatternMeaning("98765432");
  }

  // ---------------------------------------------------------------------------
  // The rules. A string field is "required" when it is not the empty string;
  // the schema neither trims whitespace nor checks degree, stream or year
  // against the catalog. The e-mail grammar belongs to the validation library
  // and is a parameter of the model.

  const MIN_PASSWORD_LENGTH := 6

  /** Whether field f of v satisfies its rule (the rule table, independent of messages). */
  predicate Satisfies(v: Values, f: Field, isEmail: string -> bool)
    ensures Satisfies(v, f, isEmail) ==> Get(v, f) != ""
    ensures f == Password ==> (Satisfies(v, f, isEmail) <==> |v.password| >= MIN_PASSWORD_LENGTH)
  {
    match f
    case Email => v.email != "" && isEmail(v.email)
    case Phone => v.phone != "" && Matches(PHONE_PATTERN, v.phone)
    case Password => v.password != "" && |v.password| >= MIN_PASSWORD_LENGTH
    case _ => Get(v, f) != ""
  }

  /**
   * Every rule reads its own field only: in particular the stream and year
   * rules never consult the degree or the catalog.
   */
  lemma RulesReadOwnFieldOnly(v: Values, w: Values, f: Field, isEmail: string -> bool)
    requires Get(v, f) == Get(w, f)
    ensures Satisfies(v, f, isEmail) <==> Satisfies(w, f, isEmail)
  {
  }

  /** Stream and year pass with any non-empty text, whatever the degree. */
  lemma StreamAndYearNotCheckedAgainstCatalog(v: Values, isEmail: string -> bool)
    requires v.stream == "History" && v.year == "Ninth Year" && v.degree == "BTech"
    ensures Satisfies(v, Stream, isEmail) && Satisfies(v, Year, isEmail)
  {
  }

  /** The messages the schema declares for a field. */
  function Messages(f: Field): set<string> {
    match f
    case Name => {"Name is required"}
    case Email => {"Invalid email", "Email is required"}
    case Phone => {"Invalid phone number", "Phone number is required"}
    case College => {"College name is required"}
    case Degree => {"Degree is required"}
    case Stream => {"Stream is required"}
    case Year => {"Year is required"}
    case BirthDate => {"Birth date is required"}
    case Password => {"Password must be at least 6 characters", "Password is required"}
  }

  /**
   * The schema's verdict on one field; an empty field that also fails its
   * format or length test reports its "required" message.
   */
  function FieldError(v: Values, f: Field, isEmail: string -> bool): (r: Option<string>)
    ensures r.None? <==> Satisfies(v, f, isEmail)
    ensures r.Some? ==> r.value in Messages(f)
  {
    match f
    case Name => if v.name == "" then Some("Name is required") else None
    case Email =>
      if v.email == "" then Some("Email is required")
      else if !isEmail(v.email) then Some("Invalid email")
      else None
    case Phone =>
      if v.phone == "" then Some("Phone number is required")
      else if !Matches(PHONE_PATTERN, v.phone) then Some("Invalid phone number")
      else None
    case College => if v.college == "" then Some("College name is required") else None
    case Degree => if v.degree == "" then Some("Degree is required") else None
    case Stream => if v.stream == "" then Some("Stream is required") else None
    case Year => if v.year == "" then Some("Year is required") else None
    case BirthDate => if v.birthDate == "" then Some("Birth date is required") else None
    case Password =>
      if v.password == "" then Some("Password is required")
      else if |v.password| < MIN_PASSWORD_LENGTH then Some("Password must be at least 6 characters")
      else None
  }

  /**
   * Whole-form validation: the map holds an entry for exactly the fields
   * that break their rule, each with one of that field's messages.
   */
  function Validate(v: Values, isEmail: string -> bool): (r: map<Field, string>)
    ensures forall f :: f in r <==> !Satisfies(v, f, isEmail)
    ensures forall f :: f in r ==> r[f] in Messages(f)
  {
    map f | f in ALL_FIELDS && FieldError(v, f, isEmail).Some? :: FieldError(v, f, isEmail).value
  }

  /** The form has no errors exactly when every field satisfies its rule. */
  lemma ValidIffAllRulesHold(v: Values, isEmail: string -> bool)
    ensures Validate(v, isEmail) == map[] <==> forall f :: Satisfies(v, f, isEmail)
  {
  }

  /** The initial all-empty form breaks the rule of every one of the nine fields. */
  lemma InitialFormHasEveryError(isEmail: string -> bool)
    ensures Validate(INITIAL_VALUES, isEmail).Keys == ALL_FIELDS
  {
  }

  /** The phone rule is exactly the pattern: the pattern never matches the empty string. */
  lemma PhoneRuleIsPattern(v: Values, isEmail: string -> bool)
    ensures Satisfies(v, Phone, isEmail) <==>
      |v.phone| == 10 && '6' <= v.phone[0] <= '9' &&
      forall i :: 1 <= i < 10 ==> IsAsciiDigit(v.phone[i])
  {
    PhonePatternMeaning(v.phone);
  }

  /** The password rule is a length bound alone: any six characters pass. */
  lemma PasswordRuleIsLength(v: Values, isEmail: string -> bool)
    ensures Satisfies(v, Password, isEmail) <==> |v.password| >= 6
  {
  }
}

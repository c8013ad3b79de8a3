/**
 * The student signup form: the change handlers wired to each field (the
 * degree handler clears year and stream), the blur handler, error
 * visibility, and the submit gate with its outcome handling. The pure parts
 * are functions on values; the form's state is the class SignupForm.
 */
module Signup {
  import opened Wrappers
  import opened Catalog
  import opened Schema

  // ---------------------------------------------------------------------------
  // What the widgets can supply.

  /** The phone input accepts at most this many typed characters. */
  const PHONE_MAX_LENGTH := 10

  /**
   * Whether the widget for field f can supply value s while the degree is
   * `degree`: the degree menu offers its catalog values; the year and stream
   * menus are shown only for a non-empty degree, the year menu offering the
   * empty choice and that degree's years, the stream menu only that degree's
   * streams; the phone input takes at most ten characters; the other inputs
   * take any text.
   */
  predicate Offered(f: Field, s: string, degree: string)
    ensures Offered(f, s, degree) && (f == Year || f == Stream) ==> degree != ""
    ensures Offered(f, s, degree) && f == Stream ==> s != "" && degree in DegreeValues()
    ensures Offered(f, s, degree) && f == Year && s != "" ==> degree in DegreeValues()
    ensures Offered(f, s, degree) && f == Degree ==> s in DegreeValues()
  {
    match f
    case Degree => s in DegreeValues()
    case Year => degree != "" && (s == "" || s in AvailableYears(degree))
    case Stream => degree != "" && s in AvailableStreams(degree)
    case Phone => |s| <= PHONE_MAX_LENGTH
    case _ => true
  }

  /**
   * The menu invariant: the degree is a menu value, and year and stream are
   * empty or belong to the current degree's lists.
   */
  predicate Consistent(v: Values)
    ensures Consistent(v) && v.degree == "" ==> v.year == "" && v.stream == ""
  {
    && v.degree in DegreeValues()
    && (v.year == "" || v.year in AvailableYears(v.degree))
    && (v.stream == "" || v.stream in AvailableStreams(v.degree))
    && |v.phone| <= PHONE_MAX_LENGTH
  }

  // ---------------------------------------------------------------------------
  // The change handlers on values.

  /**
   * The values after the change handler of field f receives s. For the degree
   * the handler sets the degree and then clears year and stream, whether or
   * not they would still be valid; every other handler sets its own field.
   */
  function Changed(v: Values, f: Field, s: string): (r: Values)
    ensures f == Degree ==> r.degree == s && r.year == "" && r.stream == ""
    ensures f == Degree ==> forall g :: g != Degree && g != Year && g != Stream ==> Get(r, g) == Get(v, g)
    ensures f != Degree ==> Get(r, f) == s && forall g :: g != f ==> Get(r, g) == Get(v, g)
  {
    if f == Degree then With(With(With(v, Degree, s), Year, ""), Stream, "")
    else With(v, f, s)
  }

  lemma InitialValuesConsistent()
    ensures Consistent(INITIAL_VALUES)
  {
  }

  /** A change the widgets can supply keeps the menu invariant. */
  lemma ChangePreservesConsistency(v: Values, f: Field, s: string)
    requires Consistent(v)
    requires Offered(f, s, v.degree)
    ensures Consistent(Changed(v, f, s))
  {
  }

  /** One user edit: field and value. */
  datatype Input = Input(field: Field, value: string)

  /** The values after a sequence of edits, applied in order. */
  function Replay(v: Values, inputs: seq<Input>): Values
    decreases |inputs|
  {
    if inputs == [] then v
    else Replay(Changed(v, inputs[0].field, inputs[0].value), inputs[1..])
  }

  /** Every edit of the sequence is one its widget offers at the moment it is made. */
  predicate AllOffered(v: Values, inputs: seq<Input>)
    decreases |inputs|
  {
    inputs == [] ||
    (Offered(inputs[0].field, inputs[0].value, v.degree) &&
     AllOffered(Changed(v, inputs[0].field, inputs[0].value), inputs[1..]))
  }

  /**
   * Starting from the initial form, any sequence of widget-supplied edits
   * leaves year and stream empty or in the current degree's lists.
   */
  lemma {:induction false} ReplayConsistent(v: Values, inputs: seq<Input>)
    requires Consistent(v)
    requires AllOffered(v, inputs)
    ensures Consistent(Replay(v, inputs))
    decreases |inputs|
  {
    if inputs != [] {
      var next := Changed(v, inputs[0].field, inputs[0].value);
      ChangePreservesConsistency(v, inputs[0].field, inputs[0].value);
      ReplayConsistent(next, inputs[1..]);
    }
  }

  /** Year "First Year" is valid for both BA and BSc, yet moving BA to BSc clears it. */
  lemma DegreeChangeResetsEvenWhenStillValid(v: Values)
    requires v.degree == "BA" && v.year == "First Year" && v.stream == "Economics"
    ensures "First Year" in AvailableYears("BSc") && "Economics" in AvailableStreams("BCom")
    ensures Changed(v, Degree, "BSc").year == "" && Changed(v, Degree, "BCom").stream == ""
  {
  }

  /** Under BTech, "History" is never a committed stream of a consistent form. */
  lemma HistoryNeverUnderBTech(v: Values)
    requires Consistent(v) && v.degree == "BTech"
    ensures v.stream != "History"
    ensures !Offered(Stream, "History", v.degree)
  {
  }

  // ---------------------------------------------------------------------------
  // Submission.

  /** The HTTP statuses with which the request client resolves; any other status rejects. */
  type SuccessStatus = s: int | 200 <= s < 300 witness 200

  /**
   * What the account-creation request came back with. A response with a
   * status outside 200-299 is a rejection, like a network failure, and
   * carries the response body's `error` text when there is one.
   */
  datatype GatewayResult =
    | Responded(status: SuccessStatus)
    | Threw(serverError: Option<string>)

  /** What the user is told after a submit attempt. */
  datatype Notice =
    | NotSubmitted              // validation failed: no request was sent
    | SignupSuccessful          // success notice and redirect to the student login
    | NoNotice                  // resolved with a 2xx status other than 201: nothing happens
    | ErrorToast(message: string)

  const CREATED := 201
  const FALLBACK_MESSAGE := "Something went wrong!"

  /** The submit handler's reaction to the request's result. */
  function Settle(response: GatewayResult): (r: Notice)
    ensures r == SignupSuccessful <==> response == Responded(CREATED)
    ensures r == NoNotice <==> response.Responded? && response.status != CREATED
    ensures response.Threw? && response.serverError.Some? && response.serverError.value != "" ==>
      r == ErrorToast(response.serverError.value)
    ensures response.Threw? && (response.serverError.None? || response.serverError.value == "") ==>
      r == ErrorToast(FALLBACK_MESSAGE)
  {
    match response
    case Responded(status) => if status == CREATED then SignupSuccessful else NoNotice
    case Threw(serverError) =>
      if serverError.Some? && serverError.value != "" then ErrorToast(serverError.value)
      else ErrorToast(FALLBACK_MESSAGE)
  }

  /** The snapshot sent to the server, if any, and the notice shown. */
  datatype Submission = Submission(posted: Option<Values>, notice: Notice)

  /**
   * A submit attempt: the request is sent, with exactly the current values,
   * only when whole-form validation finds no error, and the attempt counts
   * as a successful signup only on status 201.
   */
  function SubmitOutcome(v: Values, isEmail: string -> bool, response: GatewayResult): (r: Submission)
    ensures r.posted.Some? <==> Validate(v, isEmail) == map[]
    ensures r.posted.Some? ==> r.posted.value == v
    ensures r.notice == NotSubmitted <==> Validate(v, isEmail) != map[]
    ensures r.notice == SignupSuccessful <==> Validate(v, isEmail) == map[] && response == Responded(CREATED)
    ensures r.posted.Some? ==> r.notice == Settle(response)
  {
    if Validate(v, isEmail) == map[] then Submission(Some(v), Settle(response))
    else Submission(None, NotSubmitted)
  }

  /** A form with an empty required field never reaches the server. */
  lemma MissingFieldBlocksSubmit(v: Values, isEmail: string -> bool, response: GatewayResult, f: Field)
    requires Get(v, f) == ""
    ensures SubmitOutcome(v, isEmail, response) == Submission(None, NotSubmitted)
  {
    assert f in Validate(v, isEmail);
  }

  /** A fully filled-in example form is sent unchanged, once. */
  lemma ExampleFormIsSent(isEmail: string -> bool, response: GatewayResult)
    requires isEmail("asha@example.com")
    ensures var v := Values("Asha Rao", "asha@example.com", "9876543210", "City College", "BSc",
                            "Physics", "First Year", "2002-05-10", "secret1");
      Consistent(v) && SubmitOutcome(v, isEmail, response).posted == Some(v)
  {
    var v := Values("Asha Rao", "asha@example.com", "9876543210", "City College", "BSc",
                    "Physics", "First Year", "2002-05-10", "secret1");
    assert DegreeValues()[2] == "BSc";
    PhoneExamples();
    ValidIffAllRulesHold(v, isEmail);
  }

  // ---------------------------------------------------------------------------
  // The form state.

  /** The form library's state for the signup form: values, error map and touched set. */
  class SignupForm {
    var values: Values
    var errors: map<Field, string>
    var touched: set<Field>
    /** The validation library's e-mail grammar, which the model leaves abstract. */
    const isEmail: string -> bool

    /** The error map is either the initial empty one or the verdict on the current values. */
    ghost predicate ErrorsCurrent()
      reads this
    {
      errors == map[] || errors == Validate(values, isEmail)
    }

    /** The form at mount: all values empty, no errors computed yet, nothing touched. */
    constructor (isEmail: string -> bool)
      ensures this.isEmail == isEmail
      ensures values == INITIAL_VALUES && errors == map[] && touched == {}
      ensures ErrorsCurrent() && Consistent(values)
      ensures forall f :: VisibleError(f).None?
    {
      this.isEmail := isEmail;
      values := INITIAL_VALUES;
      errors := map[];
      touched := {};
      new;
      InitialValuesConsistent();
    }

    /**
     * Sets one field and revalidates the whole form (what both the generic
     * change handler and setFieldValue do); the touched set is untouched.
     */
    method SetFieldValue(f: Field, s: string)
      modifies this
      ensures values == With(old(values), f, s)
      ensures errors == Validate(values, isEmail) && ErrorsCurrent()
      ensures touched == old(touched)
    {
      values := With(values, f, s);
      errors := Validate(values, isEmail);
    }

    /**
     * The change handler wired to field f. The degree handler makes three
     * updates in order: the degree, then year := "", then stream := "".
     */
    method ChangeField(f: Field, s: string)
      modifies this
      ensures values == Changed(old(values), f, s)
      ensures errors == Validate(values, isEmail) && ErrorsCurrent()
      ensures touched == old(touched)
      ensures old(Consistent(values)) && Offered(f, s, old(values.degree)) ==> Consistent(values)
    {
      ghost var before := values;
      if f == Degree {
        SetFieldValue(Degree, s);
        SetFieldValue(Year, "");
        SetFieldValue(Stream, "");
      } else {
        SetFieldValue(f, s);
      }
      if Consistent(before) && Offered(f, s, before.degree) {
        ChangePreservesConsistency(before, f, s);
      }
    }

    /** Leaving a field marks it touched and revalidates; no value changes. */
    method BlurField(f: Field)
      modifies this
      ensures values == old(values)
      ensures touched == old(touched) + {f}
      ensures errors == Validate(values, isEmail) && ErrorsCurrent()
    {
      touched := touched + {f};
      errors := Validate(values, isEmail);
    }

    /** Whether the input of field f is on the page: year and stream only while a degree is chosen. */
    predicate Rendered(f: Field)
      reads this
    {
      (f == Year || f == Stream) ==> values.degree != ""
    }

    /**
     * The error shown under field f: only while f is on the page, once f is
     * touched and has an error; a shown error is always a real violation.
     */
    function VisibleError(f: Field): (r: Option<string>)
      reads this
      ensures r.Some? <==> Rendered(f) && f in touched && f in errors
      ensures r.Some? ==> r.value == errors[f]
      ensures errors == Validate(values, isEmail) ==>
        (r.Some? <==> Rendered(f) && f in touched && !Satisfies(values, f, isEmail))
      ensures ErrorsCurrent() && r.Some? ==> !Satisfies(values, f, isEmail) && r.value in Messages(f)
    {
      if Rendered(f) && f in touched && f in errors then Some(errors[f]) else None
    }

    /**
     * Submit: every field becomes touched and the whole form is validated;
     * the request is sent only when there is no error, and the values are
     * kept whatever the outcome.
     */
    method Submit(response: GatewayResult) returns (r: Submission)
      modifies this
      ensures values == old(values)
      ensures touched == ALL_FIELDS
      ensures errors == Validate(values, isEmail) && ErrorsCurrent()
      ensures r == SubmitOutcome(values, isEmail, response)
      ensures forall f :: VisibleError(f).Some? <==> Rendered(f) && !Satisfies(values, f, isEmail)
    {
      touched := ALL_FIELDS;
      errors := Validate(values, isEmail);
      if errors == map[] {
        r := Submission(Some(values), Settle(response));
      } else {
        r := Submission(None, NotSubmitted);
      }
    }
  }
}

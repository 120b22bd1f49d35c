/** The quality-report form as a pure state machine: field edits, the issue-type buttons,
    the anonymous checkbox, submission with its required-field check, and Clear Form. */
module ReportForm {
  import opened Outcomes
  import opened Records

  // ---------------------------------------------------------------------------
  // Issue types
  // ---------------------------------------------------------------------------

  /** The issue kinds the form offers, one button each. */
  datatype IssueKind = Packaging | Appearance | Effectiveness | SideEffects | Expiry | Counterfeit

  /** The buttons in display order. */
  const IssueKinds: seq<IssueKind> := [Packaging, Appearance, Effectiveness, SideEffects, Expiry, Counterfeit]

  /** The id a button writes into the `issueType` field. */
  function IssueId(k: IssueKind): string {
    match k
    case Packaging => "packaging"
    case Appearance => "appearance"
    case Effectiveness => "effectiveness"
    case SideEffects => "side-effects"
    case Expiry => "expiry"
    case Counterfeit => "counterfeit"
  }

  /** The six ids, in display order. */
  const IssueIds: seq<string> :=
    ["packaging", "appearance", "effectiveness", "side-effects", "expiry", "counterfeit"]

  /** The kind whose button writes the given id, if any. */
  function ParseIssue(id: string): (r: Option<IssueKind>)
    ensures r.Some? ==> IssueId(r.value) == id
    ensures r.None? <==> id !in IssueIds
  {
    if id == "packaging" then Some(Packaging)
    else if id == "appearance" then Some(Appearance)
    else if id == "effectiveness" then Some(Effectiveness)
    else if id == "side-effects" then Some(SideEffects)
    else if id == "expiry" then Some(Expiry)
    else if id == "counterfeit" then Some(Counterfeit)
    else None
  }

  /** Every kind is offered exactly once, its id is among the six, and the id names it back. */
  lemma IssueIdsRoundTrip(k: IssueKind)
    ensures IssueId(k) in IssueIds
    ensures ParseIssue(IssueId(k)) == Some(k)
    ensures k in IssueKinds
  {
  }

  // ---------------------------------------------------------------------------
  // Fields
  // ---------------------------------------------------------------------------

  /** The state the form starts in, and the one Clear Form and a successful submit restore. */
  const EmptyForm := ReportFormData("", "", "", "", "", false, "")

  datatype Field = MedicineName | PharmacyName | Location | IssueType | Description | Anonymous | ContactInfo

  /** A field's value: text for every field except the anonymous checkbox. */
  datatype Value = Text(text: string) | Flag(flag: bool)

  /** The value fits the field's declared type. */
  predicate FitsField(f: Field, v: Value) {
    if f == Anonymous then v.Flag? else v.Text?
  }

  /** Read one field. */
  function Get(form: ReportFormData, f: Field): (v: Value)
    ensures FitsField(f, v)
  {
    match f
    case MedicineName => Text(form.medicineName)
    case PharmacyName => Text(form.pharmacyName)
    case Location => Text(form.location)
    case IssueType => Text(form.issueType)
    case Description => Text(form.description)
    case Anonymous => Flag(form.anonymous)
    case ContactInfo => Text(form.contactInfo)
  }

  /** `handleInputChange`: `{ ...prev, [field]: value }`. */
  function HandleInputChange(form: ReportFormData, f: Field, v: Value): (r: ReportFormData)
    requires FitsField(f, v)
    ensures Get(r, f) == v
    ensures forall g :: g != f ==> Get(r, g) == Get(form, g)
  {
    match f
    case MedicineName => form.(medicineName := v.text)
    case PharmacyName => form.(pharmacyName := v.text)
    case Location => form.(location := v.text)
    case IssueType => form.(issueType := v.text)
    case Description => form.(description := v.text)
    case Anonymous => form.(anonymous := v.flag)
    case ContactInfo => form.(contactInfo := v.text)
  }

  /** Two forms agreeing on every field are the same form, so a change to a field and back
      restores the original. */
  lemma FieldsDetermineForm(a: ReportFormData, b: ReportFormData)
    requires forall f :: Get(a, f) == Get(b, f)
    ensures a == b
  {
    assert Get(a, MedicineName) == Get(b, MedicineName);
    assert Get(a, PharmacyName) == Get(b, PharmacyName);
    assert Get(a, Location) == Get(b, Location);
    assert Get(a, IssueType) == Get(b, IssueType);
    assert Get(a, Description) == Get(b, Description);
    assert Get(a, Anonymous) == Get(b, Anonymous);
    assert Get(a, ContactInfo) == Get(b, ContactInfo);
  }

  /** Writing back a field's current value changes nothing; writing twice keeps the last. */
  lemma InputChangeLaws(form: ReportFormData, f: Field, v: Value, w: Value)
    requires FitsField(f, v) && FitsField(f, w)
    ensures HandleInputChange(form, f, Get(form, f)) == form
    ensures HandleInputChange(HandleInputChange(form, f, v), f, w) == HandleInputChange(form, f, w)
  {
    FieldsDetermineForm(HandleInputChange(form, f, Get(form, f)), form);
    FieldsDetermineForm(HandleInputChange(HandleInputChange(form, f, v), f, w), HandleInputChange(form, f, w));
  }

  // ---------------------------------------------------------------------------
  // Submit and clear
  // ---------------------------------------------------------------------------

  /** What a submit attempt gives: the submit is refused, or the data is submitted. */
  datatype Submission = MissingInformation | Submitted(report: ReportFormData)

  /** A submit attempt's outcome and the form state it leaves. */
  datatype SubmitStep = SubmitStep(outcome: Submission, form: ReportFormData)

  /** `handleSubmit`: refuse when the medicine name, issue type or description is the empty
      string (no trimming); otherwise hand the data on and reset the form. */
  function HandleSubmit(form: ReportFormData): (r: SubmitStep)
    ensures r.outcome == MissingInformation <==>
              (Get(form, MedicineName) == Text("") || Get(form, IssueType) == Text("")
               || Get(form, Description) == Text(""))
    ensures r.outcome == MissingInformation ==> r.form == form
    ensures r.outcome.Submitted? ==> r.outcome.report == form && r.form == EmptyForm
  {
    if form.medicineName == "" || form.issueType == "" || form.description == "" then
      SubmitStep(MissingInformation, form)
    else
      SubmitStep(Submitted(form), EmptyForm)
  }

  /** Clear Form. */
  function ClearForm(form: ReportFormData): ReportFormData {
    EmptyForm
  }

  /** Clear Form gives every text field the empty string and unticks anonymous; clearing
      twice is clearing once, and it lands where a successful submit does. */
  lemma ClearFormResets(form: ReportFormData)
    ensures forall f :: f != Anonymous ==> Get(ClearForm(form), f) == Text("")
    ensures Get(ClearForm(form), Anonymous) == Flag(false)
    ensures ClearForm(ClearForm(form)) == ClearForm(form)
    ensures HandleSubmit(form).outcome.Submitted? ==> HandleSubmit(form).form == ClearForm(form)
  {
  }

  /** The optional fields never block a submit, and a name of blanks passes the check: a form
      whose three required fields are non-empty is submitted whatever the others hold. */
  lemma OptionalFieldsIgnored(form: ReportFormData, pharmacyName: string, location: string,
                              anonymous: bool, contactInfo: string)
    requires form.medicineName != "" && form.issueType != "" && form.description != ""
    ensures HandleSubmit(form.(pharmacyName := pharmacyName, location := location,
                               anonymous := anonymous, contactInfo := contactInfo)).outcome.Submitted?
    ensures HandleSubmit(form.(medicineName := " ")).outcome.Submitted?
  {
  }

  // ---------------------------------------------------------------------------
  // The form as the user drives it
  // ---------------------------------------------------------------------------

  /** What the rendered form lets the user do. */
  datatype FormEvent =
    | Typed(field: Field, text: string)
    | PickedIssue(kind: IssueKind)
    | ToggledAnonymous(checked: bool)
    | PressedSubmit
    | PressedClear

  /** The text inputs on screen: the four always shown, and contact information only while
      the report is not anonymous. There is no text input for the issue type. */
  predicate HasInput(form: ReportFormData, f: Field) {
    f in {MedicineName, PharmacyName, Location, Description} || (f == ContactInfo && !form.anonymous)
  }

  /** One user action. Typing into a field that has no input on screen cannot happen and
      leaves the form as it is. */
  function Step(form: ReportFormData, ev: FormEvent): ReportFormData {
    match ev
    case Typed(f, text) => if HasInput(form, f) then HandleInputChange(form, f, Text(text)) else form
    case PickedIssue(k) => HandleInputChange(form, IssueType, Text(IssueId(k)))
    case ToggledAnonymous(b) => HandleInputChange(form, Anonymous, Flag(b))
    case PressedSubmit => HandleSubmit(form).form
    case PressedClear => ClearForm(form)
  }

  /** A sequence of user actions, in order. */
  function Run(form: ReportFormData, evs: seq<FormEvent>): ReportFormData
    decreases |evs|
  {
    if evs == [] then form else Run(Step(form, evs[0]), evs[1..])
  }

  /** The issue type is unset or one of the six ids. */
  predicate IssueTypeValid(form: ReportFormData) {
    form.issueType == "" || form.issueType in IssueIds
  }

  /** No single action can put anything but one of the six ids into the issue type. */
  lemma StepKeepsIssueType(form: ReportFormData, ev: FormEvent)
    requires IssueTypeValid(form)
    ensures IssueTypeValid(Step(form, ev))
  {
    match ev
    case PickedIssue(k) => IssueIdsRoundTrip(k);
    case _ =>
  }

  /** From any valid state, whatever the user does, the issue type stays unset or one of the
      six ids; in particular from the empty form. */
  lemma {:induction false} RunKeepsIssueType(form: ReportFormData, evs: seq<FormEvent>)
    requires IssueTypeValid(form)
    ensures IssueTypeValid(Run(form, evs))
    decreases |evs|
  {
    if evs != [] {
      StepKeepsIssueType(form, evs[0]);
      RunKeepsIssueType(Step(form, evs[0]), evs[1..]);
    }
  }

  /** Whatever was typed before, pressing Clear Form ends in the empty form. */
  lemma {:induction false} ClearAtEndResets(form: ReportFormData, evs: seq<FormEvent>)
    ensures Run(form, evs + [PressedClear]) == EmptyForm
    decreases |evs|
  {
    if evs == [] {
      assert Run(form, [PressedClear]) == Run(EmptyForm, []);
    } else {
      assert (evs + [PressedClear])[1..] == evs[1..] + [PressedClear];
      ClearAtEndResets(Step(form, evs[0]), evs[1..]);
    }
  }
}

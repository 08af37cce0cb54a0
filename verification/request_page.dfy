/** The request form of `Request.tsx`: field edits, and what a submit sends
    and keeps. */
module RequestPage {
  import opened Wrappers
  import opened Outcomes
  import Api
  import opened Schema
  import LocationRequestsHook

  /** The inputs that carry a `name` attribute. */
  datatype Field = NameField | EmailField | AirportField | LocationField | MessageField

  /** `formData`. The initial object has no `location` key; it gains one when
      the location input is edited or the form is cleared. */
  datatype FormData = FormData(name: string, email: string, airport: string, location: Option<string>, message: string)

  /** Four empty fields and no `location`. */
  const InitialForm: FormData := FormData("", "", "", None, "")

  /** The object a successful submit stores: all five fields empty. */
  const ClearedForm: FormData := FormData("", "", "", Some(""), "")

  /** `formData[field]`: the field's value, `None` when the key is absent. */
  function FieldValue(f: FormData, field: Field): Option<string> {
    match field
    case NameField => Some(f.name)
    case EmailField => Some(f.email)
    case AirportField => Some(f.airport)
    case LocationField => f.location
    case MessageField => Some(f.message)
  }

  /** `handleInputChange`: `{ ...prev, [name]: value }`. */
  function HandleInputChange(f: FormData, field: Field, value: string): (g: FormData)
    ensures FieldValue(g, field) == Some(value)
    ensures forall other :: other != field ==> FieldValue(g, other) == FieldValue(f, other)
  {
    match field
    case NameField => f.(name := value)
    case EmailField => f.(email := value)
    case AirportField => f.(airport := value)
    case LocationField => f.(location := Some(value))
    case MessageField => f.(message := value)
  }

  /** A form is determined by the values of its fields. */
  lemma {:induction false} FieldsDetermineForm(f: FormData, g: FormData)
    requires forall field :: FieldValue(f, field) == FieldValue(g, field)
    ensures f == g
  {
    assert FieldValue(f, NameField) == FieldValue(g, NameField);
    assert FieldValue(f, EmailField) == FieldValue(g, EmailField);
    assert FieldValue(f, AirportField) == FieldValue(g, AirportField);
    assert FieldValue(f, LocationField) == FieldValue(g, LocationField);
    assert FieldValue(f, MessageField) == FieldValue(g, MessageField);
  }

  /** Edits of two different fields do not interfere: their order does not matter. */
  lemma {:induction false} EditsOfDifferentFieldsCommute(f: FormData, a: Field, x: string, b: Field, y: string)
    requires a != b
    ensures HandleInputChange(HandleInputChange(f, a, x), b, y) == HandleInputChange(HandleInputChange(f, b, y), a, x)
  {
  }

  /** `submitRequest(formData)`: the form object is sent as it is. */
  function PayloadOf(f: FormData): (p: Api.RequestPayload)
    ensures p.name == f.name && p.email == f.email && p.airport == f.airport
    ensures p.location == f.location && p.message == Some(f.message)
    ensures p.status.None?
  {
    Api.RequestPayload(f.name, f.email, f.airport, f.location, Some(f.message), None)
  }

  /** The page's form and the request hook it uses. */
  datatype Page = Page(form: FormData, requests: LocationRequestsHook.State)

  /** `handleSubmit`, with the outcome `o` of `create`: the page afterwards and
      the payload sent. A created row clears the form; a failure keeps it. */
  function HandleSubmit(page: Page, o: Outcome<LocationRequest>): (r: (Page, Api.RequestPayload))
    ensures r.1 == PayloadOf(page.form)
    ensures o.Ok? ==> forall field :: FieldValue(r.0.form, field) == Some("")
    ensures o.Err? ==> r.0.form == page.form
    ensures r.0.requests == LocationRequestsHook.SubmitRequest(page.requests, o).0
  {
    var (requests, result) := LocationRequestsHook.SubmitRequest(page.requests, o);
    var form := if result.Some? then ClearedForm else page.form;
    (Page(form, requests), PayloadOf(page.form))
  }

  /** `handleSubmit` does not re-validate: it sends whatever the form holds,
      even the untouched initial form when it is called on it. */
  lemma UntouchedFormIsSent(hook: LocationRequestsHook.State, o: Outcome<LocationRequest>)
    ensures var p := HandleSubmit(Page(InitialForm, hook), o).1;
      p.name == "" && p.email == "" && p.airport == "" && p.location.None?
  {
  }
}

/**
 * The frontend's restaurant schema as a predicate over the form's data: which issues parsing
 * reports, by path and message.  Strings need only a length of at least 1, without trimming.
 */
module FormSchema {
  import opened Wrappers
  import opened Calendar
  import opened FrontendTypes

  datatype FormAddress = FormAddress(
    streetNumber: string, streetName: string, unit: Option<string>,
    city: string, state: string, postalCode: string, country: string)

  datatype FormData = FormData(
    name: string, cuisineType: string, contactInformation: string,
    address: FormAddress, operatingHours: map<Weekday, DayValue>, photos: seq<string>)

  datatype Issue = Issue(path: string, message: string)

  const NullDayMessage := "Expected object, received null"

  /** `z.string().min(1, message)` on a present string. */
  function MinLengthIssue(path: string, value: string, message: string): set<Issue> {
    if |value| >= 1 then {} else {Issue(path, message)}
  }

  function AddressIssues(a: FormAddress): set<Issue> {
    MinLengthIssue("address.streetNumber", a.streetNumber, "Street number is required")
    + MinLengthIssue("address.streetName", a.streetName, "Street name is required")
    + MinLengthIssue("address.city", a.city, "City is required")
    + MinLengthIssue("address.state", a.state, "State is required")
    + MinLengthIssue("address.postalCode", a.postalCode, "Postal code is required")
    + MinLengthIssue("address.country", a.country, "Country is required")
  }

  /** An optional day accepts `undefined` and any pair of strings, but not `null`. */
  function HoursIssues(hours: map<Weekday, DayValue>): set<Issue> {
    set d | d in hours && hours[d] == Null :: Issue("operatingHours." + DayKey(d), NullDayMessage)
  }

  /** Every issue `restaurantSchema` reports for the form's data. */
  function SchemaIssues(form: FormData): set<Issue> {
    MinLengthIssue("name", form.name, "Name is required")
    + MinLengthIssue("cuisineType", form.cuisineType, "Cuisine type is required")
    + MinLengthIssue("contactInformation", form.contactInformation, "Contact information is required")
    + AddressIssues(form.address)
    + HoursIssues(form.operatingHours)
  }

  /** The schema's rule field by field. */
  predicate Acceptable(form: FormData) {
    && form.name != [] && form.cuisineType != [] && form.contactInformation != []
    && form.address.streetNumber != [] && form.address.streetName != [] && form.address.city != []
    && form.address.state != [] && form.address.postalCode != [] && form.address.country != []
    && forall d | d in form.operatingHours :: form.operatingHours[d] != Null
  }

  /**
   * The form parses exactly when the required strings are non-empty and no day is `null`; the
   * unit, the photo list and the time strings are never checked.
   */
  lemma SchemaAcceptsExactly(form: FormData)
    ensures SchemaIssues(form) == {} <==> Acceptable(form)
  {
    var hours := form.operatingHours;
    forall d | d in hours
      ensures hours[d] == Null ==> Issue("operatingHours." + DayKey(d), NullDayMessage) in SchemaIssues(form)
    {
      assert hours[d] == Null ==> Issue("operatingHours." + DayKey(d), NullDayMessage) in HoursIssues(hours);
    }
  }

  /** A `null` day is reported under its own key. */
  lemma NullDayRejected(form: FormData, day: Weekday)
    requires DayOf(form, day) == Null
    ensures Issue("operatingHours." + DayKey(day), NullDayMessage) in SchemaIssues(form)
  {
  }

  function DayOf(form: FormData, day: Weekday): DayValue {
    if day in form.operatingHours then form.operatingHours[day] else Unset
  }

  /** Changing the photos, the unit or any day's two time strings never changes what the schema reports. */
  lemma UncheckedFields(form: FormData, photos: seq<string>, unit: Option<string>, day: Weekday, open: string, close: string)
    requires DayOf(form, day) != Null
    ensures SchemaIssues(form.(photos := photos, address := form.address.(unit := unit),
                               operatingHours := form.operatingHours[day := Hours(open, close)]))
            == SchemaIssues(form)
  {
    var changed := form.operatingHours[day := Hours(open, close)];
    assert forall d | d in changed && changed[d] == Null :: d in form.operatingHours && form.operatingHours[d] == Null;
    assert forall d | d in form.operatingHours && form.operatingHours[d] == Null :: d in changed && changed[d] == Null;
  }
}

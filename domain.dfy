/**
 * The backend's entities as values, and the exceptions its services throw.  A Java reference that
 * may be null is an `Option`; a clock reading is an `Instant` supplied by the caller.
 */
module Domain {
  import opened Wrappers
  import opened Calendar

  /** A reading of `LocalDateTime.now()`; the clock is a parameter of every operation that reads it. */
  type Instant = int

  newtype byte = b: int | 0 <= b < 256

  datatype Photo = Photo(url: string, uploadDate: Instant)

  /** What the geolocation service returns. */
  datatype GeoLocation = GeoLocation(latitude: real, longitude: real)

  /** The search engine's point type stored on a restaurant. */
  datatype GeoPoint = GeoPoint(lat: real, lon: real)

  datatype Address = Address(
    streetNumber: Option<string>, streetName: Option<string>, unit: Option<string>,
    city: Option<string>, state: Option<string>, postalCode: Option<string>, country: Option<string>)

  datatype TimeRange = TimeRange(openTime: Option<string>, closeTime: Option<string>)

  /** A day without an entry is a null day. */
  type OperatingHours = map<Weekday, TimeRange>

  datatype User = User(id: Option<string>, username: Option<string>, givenName: Option<string>, familyName: Option<string>)

  datatype Review = Review(
    id: Option<string>, content: Option<string>, rating: Option<int>,
    datePosted: Option<Instant>, lastEdited: Option<Instant>, photos: seq<Photo>, writtenBy: Option<User>)

  datatype Restaurant = Restaurant(
    id: Option<string>,
    name: Option<string>,
    cuisineType: Option<string>,
    contactInformation: Option<string>,
    averageRating: Option<real>,
    geoLocation: Option<GeoPoint>,
    address: Option<Address>,
    operatingHours: Option<OperatingHours>,
    photos: seq<Photo>,
    reviews: Option<seq<Review>>,
    createdBy: Option<User>)

  /** The service-layer request the controller maps a validated DTO into. */
  datatype CreateUpdateRequest = CreateUpdateRequest(
    name: Option<string>,
    cuisineType: Option<string>,
    contactInformation: Option<string>,
    address: Option<Address>,
    operatingHours: Option<OperatingHours>,
    photoIds: Option<seq<string>>)

  /** One entry of a binding result: the field's path and the constraint's message. */
  datatype FieldError = FieldError(field: string, defaultMessage: string)

  /** The exceptions that reach the error controller. */
  datatype Exception =
    | RestaurantNotFound(message: string)
    | ReviewNotAllowed(message: string)
    | Storage(message: string)
    | MethodArgumentNotValid(fieldErrors: seq<FieldError>)
    | InvalidPath(input: string)
    | NullPointer
}

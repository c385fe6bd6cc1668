/**
 * The restaurant service: creating, searching, reading, updating and deleting restaurants.  The
 * search engine's documents are a map from id to restaurant; the geolocation service's answer
 * and the clock are parameters, and a search is modelled by the repository query it issues.
 */
module RestaurantService {
  import opened Wrappers
  import opened Domain
  import Text

  /** The repository query a search delegates to. */
  datatype SearchQuery =
    | FuzzyWithMinRating(query: string, minRating: real)
    | Near(latitude: real, longitude: real, radiusMiles: real)
    | RatingAtLeast(minRating: real)
    | Everything

  /**
   * `searchRestaurants`: a query with non-whitespace text wins (with a minimum rating of 0 when
   * none is given), then a complete geo triple, then a bare minimum rating, then everything.
   */
  function SearchRestaurants(query: Option<string>, minRating: Option<real>, latitude: Option<real>, longitude: Option<real>, radius: Option<real>): (r: SearchQuery)
    ensures r.FuzzyWithMinRating? <==> query.Some? && Text.JavaTrim(query.value) != []
    ensures r.FuzzyWithMinRating? ==> r.query == query.value && r.minRating == minRating.GetOr(0.0)
    ensures r.Near? <==> !r.FuzzyWithMinRating? && latitude.Some? && longitude.Some? && radius.Some?
    ensures r.Near? ==> r == Near(latitude.value, longitude.value, radius.value)
    ensures r.RatingAtLeast? ==> minRating == Some(r.minRating)
    ensures r.Everything? <==> !r.FuzzyWithMinRating? && !r.Near? && minRating.None?
  {
    var searchMinRating := minRating.GetOr(0.0);
    if query.Some? && Text.JavaTrim(query.value) != [] then FuzzyWithMinRating(query.value, searchMinRating)
    else if latitude.Some? && longitude.Some? && radius.Some? then Near(latitude.value, longitude.value, radius.value)
    else if minRating.Some? then RatingAtLeast(minRating.value)
    else Everything
  }

  /**
   * The priority the method's documentation describes: a minimum rating with a null or empty query
   * comes first, then a non-empty query, then the geo triple, then everything.
   */
  function DocumentedSearch(query: Option<string>, minRating: Option<real>, latitude: Option<real>, longitude: Option<real>, radius: Option<real>): (r: SearchQuery)
    ensures (query.None? || query.value == []) && minRating.Some? ==> r == RatingAtLeast(minRating.value)
    ensures query.Some? && query.value != [] ==> r == FuzzyWithMinRating(query.value, minRating.GetOr(0.0))
  {
    if minRating.Some? && (query.None? || query.value == []) then RatingAtLeast(minRating.value)
    else if query.Some? && query.value != [] then FuzzyWithMinRating(query.value, minRating.GetOr(0.0))
    else if latitude.Some? && longitude.Some? && radius.Some? then Near(latitude.value, longitude.value, radius.value)
    else Everything
  }

  /**
   * The code and its documentation disagree exactly on a whitespace-only query (the documentation
   * searches for it, the code ignores it) and on a minimum rating given with a complete geo triple
   * and no query text (the documentation filters by rating, the code searches by location).
   */
  lemma SearchDivergesFromDocumentation(query: Option<string>, minRating: Option<real>, latitude: Option<real>, longitude: Option<real>, radius: Option<real>)
    ensures SearchRestaurants(query, minRating, latitude, longitude, radius) != DocumentedSearch(query, minRating, latitude, longitude, radius)
      <==>
        || (query.Some? && query.value != [] && Text.JavaTrim(query.value) == [])
        || ((query.None? || query.value == []) && minRating.Some? && latitude.Some? && longitude.Some? && radius.Some?)
  {
    if query.Some? && query.value == [] {
      assert Text.JavaTrim(query.value) == [];
    }
  }

  /** A query with text is searched the same way whatever else is given. */
  lemma QueryTextOverridesFilters(query: string, minRating: Option<real>, latitude: Option<real>, longitude: Option<real>, radius: Option<real>)
    requires Text.JavaTrim(query) != []
    ensures SearchRestaurants(Some(query), minRating, latitude, longitude, radius) == SearchRestaurants(Some(query), minRating, None, None, None)
  {
  }

  /** The photos recorded for the given ids, in order, the i-th stamped with the i-th clock reading. */
  function PhotosFor(photoIds: seq<string>, clock: nat -> Instant): (r: seq<Photo>)
    ensures |r| == |photoIds|
  {
    seq(|photoIds|, i requires 0 <= i < |photoIds| => Photo(photoIds[i], clock(i)))
  }

  function PhotoUrls(photos: seq<Photo>): (r: seq<string>)
    ensures |r| == |photos|
  {
    seq(|photos|, i requires 0 <= i < |photos| => photos[i].url)
  }

  /** The photos' URLs are the request's photo ids, in order, whatever the clock says. */
  lemma PhotoUrlsAreIds(photoIds: seq<string>, clock: nat -> Instant)
    ensures PhotoUrls(PhotosFor(photoIds, clock)) == photoIds
  {
  }

  /**
   * The restaurant `createRestaurant` builds before saving.  The builder is given no cuisine type,
   * and a builder ignores the field initializers, so the reviews list is null too.  A null photo
   * id list throws a NullPointerException.
   */
  function NewRestaurant(request: CreateUpdateRequest, location: GeoLocation, clock: nat -> Instant): (r: Result<Restaurant, Exception>)
    ensures r.Failure? <==> request.photoIds.None?
    ensures r.Failure? ==> r.error == NullPointer
  {
    match request.photoIds
    case None => Failure(NullPointer)
    case Some(photoIds) =>
      Success(Restaurant(
        id := None,
        name := request.name,
        cuisineType := None,
        contactInformation := request.contactInformation,
        averageRating := Some(0.0),
        geoLocation := Some(GeoPoint(location.latitude, location.longitude)),
        address := request.address,
        operatingHours := request.operatingHours,
        photos := PhotosFor(photoIds, clock),
        reviews := None,
        createdBy := None))
  }

  /**
   * The restaurant `updateRestaurant` saves: name, contact information, address, location, hours
   * and photos come from the request; the cuisine type is assigned to itself, so the request's is
   * ignored.  A null photo id list throws.
   */
  function UpdatedRestaurant(existing: Restaurant, request: CreateUpdateRequest, location: GeoLocation, clock: nat -> Instant): (r: Result<Restaurant, Exception>)
    ensures r.Failure? <==> request.photoIds.None?
    ensures r.Failure? ==> r.error == NullPointer
  {
    match request.photoIds
    case None => Failure(NullPointer)
    case Some(photoIds) =>
      Success(existing.(
        name := request.name,
        cuisineType := existing.cuisineType,
        contactInformation := request.contactInformation,
        address := request.address,
        geoLocation := Some(GeoPoint(location.latitude, location.longitude)),
        operatingHours := request.operatingHours,
        photos := PhotosFor(photoIds, clock)))
  }

  /**
   * What a created restaurant holds: the request's name, contact information, address and hours,
   * the located point, photos whose URLs are the ids; no cuisine type even when the request gives
   * one, a rating of 0, no reviews list and no creator.
   */
  lemma CreatedRestaurantContents(request: CreateUpdateRequest, location: GeoLocation, clock: nat -> Instant)
    requires request.photoIds.Some?
    ensures var created := NewRestaurant(request, location, clock).value;
      && created.name == request.name && created.contactInformation == request.contactInformation
      && created.address == request.address && created.operatingHours == request.operatingHours
      && created.geoLocation == Some(GeoPoint(location.latitude, location.longitude))
      && PhotoUrls(created.photos) == request.photoIds.value
      && created.cuisineType.None? && created.averageRating == Some(0.0)
      && created.reviews.None? && created.createdBy.None?
  {
    PhotoUrlsAreIds(request.photoIds.value, clock);
  }

  /**
   * An update keeps the id, cuisine type, rating, reviews and creator of the stored restaurant,
   * takes the name, contact information, address, hours and photos from the request, and moves
   * the restaurant to the point located for the new address.
   */
  lemma UpdateKeepsIdentity(existing: Restaurant, request: CreateUpdateRequest, location: GeoLocation, clock: nat -> Instant)
    requires request.photoIds.Some?
    ensures var updated := UpdatedRestaurant(existing, request, location, clock).value;
      && updated.id == existing.id && updated.cuisineType == existing.cuisineType
      && updated.averageRating == existing.averageRating && updated.reviews == existing.reviews
      && updated.createdBy == existing.createdBy
      && updated.name == request.name && updated.contactInformation == request.contactInformation
      && updated.address == request.address && updated.operatingHours == request.operatingHours
      && updated.geoLocation == Some(GeoPoint(location.latitude, location.longitude))
      && PhotoUrls(updated.photos) == request.photoIds.value
  {
    PhotoUrlsAreIds(request.photoIds.value, clock);
  }

  /** Applying the same update twice is the same as applying it once. */
  lemma UpdateIdempotent(existing: Restaurant, request: CreateUpdateRequest, location: GeoLocation, clock: nat -> Instant)
    requires request.photoIds.Some?
    ensures var once := UpdatedRestaurant(existing, request, location, clock).value;
      UpdatedRestaurant(once, request, location, clock) == Success(once)
  {
  }

  /** Updating a just-created restaurant with its own request changes nothing: create and update agree on every field they both set. */
  lemma UpdateAfterCreateIsNoOp(request: CreateUpdateRequest, location: GeoLocation, clock: nat -> Instant, id: string)
    requires request.photoIds.Some?
    ensures var created := NewRestaurant(request, location, clock).value.(id := Some(id));
      UpdatedRestaurant(created, request, location, clock) == Success(created)
  {
  }

  class RestaurantService {
    /** The `restaurants` index, by document id. */
    var restaurants: map<string, Restaurant>

    /** Every stored restaurant carries the id it is stored under. */
    ghost predicate Valid()
      reads this
    {
      forall id | id in restaurants :: restaurants[id].id == Some(id)
    }

    constructor (restaurants: map<string, Restaurant>)
      requires forall id | id in restaurants :: restaurants[id].id == Some(id)
      ensures Valid() && this.restaurants == restaurants
    {
      this.restaurants := restaurants;
    }

    /** `getRestaurant`: the restaurant stored under `id`, if any. */
    function GetRestaurant(id: string): (r: Option<Restaurant>)
      requires Valid()
      reads this
      ensures r.Some? <==> id in restaurants
      ensures r.Some? ==> r.value.id == Some(id) && r.value == restaurants[id]
    {
      if id in restaurants then Some(restaurants[id]) else None
    }

    /**
     * `createRestaurant`: saving a restaurant without an id gives it the search engine's new id
     * `newId`; nothing else is touched.  A null photo id list stores nothing.
     */
    method CreateRestaurant(request: CreateUpdateRequest, location: GeoLocation, clock: nat -> Instant, newId: string)
      returns (r: Result<Restaurant, Exception>)
      requires Valid()
      modifies this
      ensures Valid()
      ensures request.photoIds.None? ==> r == Failure(NullPointer) && restaurants == old(restaurants)
      ensures request.photoIds.Some? ==>
        && r == Success(NewRestaurant(request, location, clock).value.(id := Some(newId)))
        && restaurants == old(restaurants)[newId := r.value]
        && GetRestaurant(newId) == Some(r.value)
    {
      var built := NewRestaurant(request, location, clock);
      if built.Failure? {
        return Failure(built.error);
      }
      var saved := built.value.(id := Some(newId));
      restaurants := restaurants[newId := saved];
      r := Success(saved);
    }

    /**
     * `updateRestaurant`: an unknown id throws RestaurantNotFoundException before anything else;
     * otherwise the stored restaurant is replaced by its update.
     */
    method UpdateRestaurant(id: string, request: CreateUpdateRequest, location: GeoLocation, clock: nat -> Instant)
      returns (r: Result<Restaurant, Exception>)
      requires Valid()
      modifies this
      ensures Valid()
      ensures id !in old(restaurants) ==>
        r == Failure(RestaurantNotFound("Restaurant with this ID does not exist: " + id)) && restaurants == old(restaurants)
      ensures id in old(restaurants) ==>
        && r == UpdatedRestaurant(old(restaurants)[id], request, location, clock)
        && (r.Failure? ==> restaurants == old(restaurants))
        && (r.Success? ==> restaurants == old(restaurants)[id := r.value])
    {
      var found := GetRestaurant(id);
      if found.None? {
        return Failure(RestaurantNotFound("Restaurant with this ID does not exist: " + id));
      }
      r := UpdatedRestaurant(found.value, request, location, clock);
      if r.Success? {
        restaurants := restaurants[id := r.value];
      }
    }

    /** `deleteRestaurant`: removes the document if present; deleting an unknown id is not an error. */
    method DeleteRestaurant(id: string)
      requires Valid()
      modifies this
      ensures Valid()
      ensures restaurants == old(restaurants) - {id}
      ensures GetRestaurant(id).None?
    {
      restaurants := restaurants - {id};
    }
  }
}

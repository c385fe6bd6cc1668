/**
 * Values the frontend passes around.  JavaScript's `undefined` and `null` are distinguished only
 * where the code distinguishes them.
 */
module FrontendTypes {
  import opened Wrappers

  /** The query string and minimum rating a search sends. */
  datatype SearchParams = SearchParams(q: Option<string>, minRating: Option<int>)

  /** A photo as the API returns it; its URL is the stored file name. */
  datatype PhotoRef = PhotoRef(url: string)

  datatype RestaurantSummary = RestaurantSummary(id: string, name: string, averageRating: Option<real>, photos: Option<seq<PhotoRef>>)

  /** A browser `File`: its name, size in bytes and MIME type. */
  datatype FileInfo = FileInfo(name: string, size: nat, mimeType: string)

  /**
   * One day's entry in the form's operating hours: never set (`undefined`), explicitly `null`, or
   * an open and a close time.
   */
  datatype DayValue = Unset | Null | Hours(openTime: string, closeTime: string)
}

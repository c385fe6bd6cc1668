/**
 * The restaurant form's state: the photo ids held by the form, their previews, and each day's
 * operating hours, with the rules the handlers apply to them.
 */
module RestaurantForm {
  import opened Wrappers
  import opened Calendar
  import opened FrontendTypes
  import opened PhotoHelpers
  import Text

  /** The key's value, `undefined` when it was never set. */
  function DayOf(hours: map<Weekday, DayValue>, day: Weekday): DayValue {
    if day in hours then hours[day] else Unset
  }

  /**
   * The open-time input's rule: a value opens the day, keeping the close time (or "" when the day
   * had none); clearing it empties the day to `null` unless a close time remains.
   */
  function OnOpenTimeChange(value: string, current: DayValue): (r: DayValue)
    ensures value != "" ==> r == Hours(value, if current.Hours? then current.closeTime else "")
    ensures value == "" && (!current.Hours? || current.closeTime == "") ==> r == Null
    ensures value == "" && current.Hours? && current.closeTime != "" ==> r == Hours("", current.closeTime)
  {
    if value != "" then
      var previous := if current.Hours? then current else Hours("", "");
      Hours(value, if previous.closeTime != "" then previous.closeTime else "")
    else if !current.Hours? || current.closeTime == "" then Null
    else Hours("", current.closeTime)
  }

  /** The close-time input's rule, the mirror image of the open-time rule. */
  function OnCloseTimeChange(value: string, current: DayValue): (r: DayValue) {
    if value != "" then
      var previous := if current.Hours? then current else Hours("", "");
      Hours(if previous.openTime != "" then previous.openTime else "", value)
    else if !current.Hours? || current.openTime == "" then Null
    else Hours(current.openTime, "")
  }

  function Swap(d: DayValue): DayValue {
    if d.Hours? then Hours(d.closeTime, d.openTime) else d
  }

  /** The close-time rule is the open-time rule with the two times exchanged. */
  lemma CloseRuleMirrorsOpenRule(value: string, current: DayValue)
    ensures OnCloseTimeChange(value, current) == Swap(OnOpenTimeChange(value, Swap(current)))
  {
  }

  /** Whichever input changes, the day ends up `null` or with at least one time: never unset, never two empty times. */
  lemma TimeRulesNeverLeaveEmptyHours(value: string, current: DayValue)
    ensures var r := OnOpenTimeChange(value, current); r == Null || (r.Hours? && (r.openTime != "" || r.closeTime != ""))
    ensures var r := OnCloseTimeChange(value, current); r == Null || (r.Hours? && (r.openTime != "" || r.closeTime != ""))
  {
    CloseRuleMirrorsOpenRule(value, current);
  }

  /** The preview URL of a photo already stored on the server. */
  function PreviewUrl(photoId: string): string {
    "/api/photos/" + photoId
  }

  /** A file picked for upload: the URL the server stored it under and its local preview URL. */
  datatype Upload = Upload(url: string, previewUrl: string)

  class Form {
    /** The form's "photos" value. */
    var photos: seq<string>
    var previews: seq<string>
    /** The form's "operatingHours" value. */
    var hours: map<Weekday, DayValue>

    constructor (photos: seq<string>, hours: map<Weekday, DayValue>)
      ensures this.photos == photos && this.hours == hours && previews == []
    {
      this.photos := photos;
      this.hours := hours;
      previews := [];
    }

    /** On mount: photos the form already holds are previewed from the server, "/api/photos/<id>" each. */
    method LoadExistingPreviews()
      modifies this`previews
      ensures |photos| > 0 ==> |previews| == |photos| && forall i | 0 <= i < |photos| :: previews[i] == PreviewUrl(photos[i])
      ensures |photos| == 0 ==> previews == old(previews)
    {
      var existingPhotoIds := photos;
      if |existingPhotoIds| > 0 {
        previews := seq(|existingPhotoIds|, i requires 0 <= i < |existingPhotoIds| => PreviewUrl(existingPhotoIds[i]));
      }
    }

    /**
     * `handleFileChange`: every picked file is uploaded (`None` is an upload that rejected).
     * `Promise.all` rejects as soon as one upload does, and then neither list changes; otherwise
     * the uploaded photos' URLs go after the existing ids and their local previews after the
     * existing previews, both in the order the files were picked.
     */
    method HandleFileChange(uploads: seq<Option<Upload>>) returns (ok: bool)
      modifies this`photos, this`previews
      ensures ok <==> forall i | 0 <= i < |uploads| :: uploads[i].Some?
      ensures !ok ==> photos == old(photos) && previews == old(previews)
      ensures ok ==> photos == old(photos) + seq(|uploads|, i requires 0 <= i < |uploads| => uploads[i].value.url)
      ensures ok ==> previews == old(previews) + seq(|uploads|, i requires 0 <= i < |uploads| => uploads[i].value.previewUrl)
      ensures |old(photos)| == |old(previews)| ==> |photos| == |previews|
    {
      ok := forall i | 0 <= i < |uploads| :: uploads[i].Some?;
      if !ok {
        return;
      }
      var photoIds := photos + seq(|uploads|, i requires 0 <= i < |uploads| => uploads[i].value.url);
      photos := photoIds;
      var newPreviews := seq(|uploads|, i requires 0 <= i < |uploads| => uploads[i].value.previewUrl);
      previews := previews + newPreviews;
    }

    /**
     * `handleRemovePhoto`: the same index leaves the previews and the photo ids, nothing else
     * moves; the removed preview is returned when it is a local blob URL to be revoked.
     */
    method HandleRemovePhoto(indexToRemove: int) returns (revoked: Option<string>)
      requires 0 <= indexToRemove < |previews|
      modifies this`photos, this`previews
      ensures previews == old(previews[..indexToRemove] + previews[indexToRemove + 1..])
      ensures photos == old(if indexToRemove < |photos| then photos[..indexToRemove] + photos[indexToRemove + 1..] else photos)
      ensures |old(photos)| == |old(previews)| ==> |photos| == |previews|
      ensures revoked.Some? <==> Text.StartsWith(old(previews[indexToRemove]), "blob:")
      ensures revoked.Some? ==> revoked.value == old(previews[indexToRemove])
    {
      var removed := previews[indexToRemove];
      WithoutIndexSplices(previews, indexToRemove);
      previews := WithoutIndex(previews, indexToRemove);
      WithoutIndexSplices(photos, indexToRemove);
      photos := WithoutIndex(photos, indexToRemove);
      revoked := if Text.StartsWith(removed, "blob:") then Some(removed) else None;
    }

    /** A change of one day's open-time input; the other days keep their values. */
    method SetOpenTime(day: Weekday, value: string)
      modifies this`hours
      ensures hours == old(hours)[day := OnOpenTimeChange(value, DayOf(old(hours), day))]
    {
      hours := hours[day := OnOpenTimeChange(value, DayOf(hours, day))];
    }

    /** A change of one day's close-time input; the other days keep their values. */
    method SetCloseTime(day: Weekday, value: string)
      modifies this`hours
      ensures hours == old(hours)[day := OnCloseTimeChange(value, DayOf(old(hours), day))]
    {
      hours := hours[day := OnCloseTimeChange(value, DayOf(hours, day))];
    }
  }
}

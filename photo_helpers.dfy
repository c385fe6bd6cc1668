/**
 * The photo-list helpers of the restaurant forms.  They build new arrays and never mutate their
 * arguments.
 */
module PhotoHelpers {
  import opened FrontendTypes

  /** `s.filter((_, i) => i !== k)`: keeps every element whose index is not `k`, in order. */
  function WithoutIndex<T>(s: seq<T>, k: int): seq<T>
    decreases |s|
  {
    if s == [] then []
    else WithoutIndex(s[..|s| - 1], k) + (if |s| - 1 != k then [s[|s| - 1]] else [])
  }

  /** Filtering out index `k` splices that element out when it exists and changes nothing otherwise. */
  lemma {:induction false} WithoutIndexSplices<T>(s: seq<T>, k: int)
    ensures WithoutIndex(s, k) == if 0 <= k < |s| then s[..k] + s[k + 1..] else s
    decreases |s|
  {
    if s != [] {
      var init := s[..|s| - 1];
      WithoutIndexSplices(init, k);
      if 0 <= k < |init| {
        assert init[..k] == s[..k];
        assert init[k + 1..] + [s[|s| - 1]] == s[k + 1..];
      } else if k == |s| - 1 {
        assert init == s[..k];
        assert s[k + 1..] == [];
      } else {
        assert init + [s[|s| - 1]] == s;
      }
    }
  }

  function Urls(photos: seq<PhotoRef>): (r: seq<string>)
    ensures |r| == |photos| && forall i | 0 <= i < |photos| :: r[i] == photos[i].url
  {
    seq(|photos|, i requires 0 <= i < |photos| => photos[i].url)
  }

  /** `mergePhotoIds`: the existing photos' URLs, in order, followed by the new URLs. */
  function MergePhotoIds(existingPhotos: seq<PhotoRef>, newUrls: seq<string>): (r: seq<string>)
    ensures |r| == |existingPhotos| + |newUrls|
    ensures forall i | 0 <= i < |existingPhotos| :: r[i] == existingPhotos[i].url
    ensures r[|existingPhotos|..] == newUrls
  {
    Urls(existingPhotos) + newUrls
  }

  /** The three lists a removal updates. */
  datatype PhotoLists = PhotoLists(previews: seq<string>, existingPhotos: seq<PhotoRef>, newImages: seq<FileInfo>)

  /**
   * `removePhotoByIndex`: the preview at `index` goes; an index before the end of the existing
   * photos removes that existing photo, any other index removes the new image at
   * `index - existingPhotos.length`.
   */
  function RemovePhotoByIndex(index: int, previews: seq<string>, existingPhotos: seq<PhotoRef>, newImages: seq<FileInfo>): PhotoLists {
    if index < |existingPhotos| then
      PhotoLists(WithoutIndex(previews, index), WithoutIndex(existingPhotos, index), newImages)
    else
      var adjustedIndex := index - |existingPhotos|;
      PhotoLists(WithoutIndex(previews, index), existingPhotos, WithoutIndex(newImages, adjustedIndex))
  }

  /**
   * The previews always lose `index` and keep their order; an index inside the existing photos
   * removes that photo and keeps the new images; any later index keeps the existing photos and
   * removes the new image at the adjusted index.
   */
  lemma RemovePhotoByIndexEffect(index: int, previews: seq<string>, existingPhotos: seq<PhotoRef>, newImages: seq<FileInfo>)
    ensures var r := RemovePhotoByIndex(index, previews, existingPhotos, newImages);
      && r.previews == (if 0 <= index < |previews| then previews[..index] + previews[index + 1..] else previews)
      && (0 <= index < |existingPhotos| ==>
            r.existingPhotos == existingPhotos[..index] + existingPhotos[index + 1..] && r.newImages == newImages)
      && (index < 0 ==> r.existingPhotos == existingPhotos && r.newImages == newImages)
      && (index >= |existingPhotos| ==>
            var j := index - |existingPhotos|;
            r.existingPhotos == existingPhotos
            && r.newImages == (if j < |newImages| then newImages[..j] + newImages[j + 1..] else newImages))
  {
    WithoutIndexSplices(previews, index);
    WithoutIndexSplices(existingPhotos, index);
    WithoutIndexSplices(newImages, index - |existingPhotos|);
  }

  /** An index outside all the lists (negative, or past both photo lists and the previews) changes nothing. */
  lemma RemoveOutOfRangeIsNoOp(index: int, previews: seq<string>, existingPhotos: seq<PhotoRef>, newImages: seq<FileInfo>)
    requires index < 0 || (index >= |existingPhotos| + |newImages| && index >= |previews|)
    ensures RemovePhotoByIndex(index, previews, existingPhotos, newImages) == PhotoLists(previews, existingPhotos, newImages)
  {
    RemovePhotoByIndexEffect(index, previews, existingPhotos, newImages);
  }

  /**
   * When the previews line up with the existing photos followed by the new images, a removal in
   * range removes exactly one of each kind of entry and keeps them lined up.
   */
  lemma RemoveKeepsPreviewsAligned(index: int, previews: seq<string>, existingPhotos: seq<PhotoRef>, newImages: seq<FileInfo>)
    requires |previews| == |existingPhotos| + |newImages| && 0 <= index < |previews|
    ensures var r := RemovePhotoByIndex(index, previews, existingPhotos, newImages);
      |r.previews| == |previews| - 1 && |r.previews| == |r.existingPhotos| + |r.newImages|
  {
    RemovePhotoByIndexEffect(index, previews, existingPhotos, newImages);
  }
}

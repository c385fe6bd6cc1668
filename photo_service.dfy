/**
 * The photo service: an upload is stored under a freshly generated UUID and recorded as a photo
 * whose URL is the stored name; retrieval looks the name up in storage.
 */
module PhotoService {
  import opened Wrappers
  import opened Domain
  import opened Paths
  import opened FileSystemStorage

  predicate IsLowerHexDigit(c: char) {
    '0' <= c <= '9' || 'a' <= c <= 'f'
  }

  /** The text of `UUID.toString()`: 36 characters, lower-case hex in groups of 8-4-4-4-12. */
  predicate IsUuid(s: string) {
    |s| == 36 && forall i | 0 <= i < 36 :: if i == 8 || i == 13 || i == 18 || i == 23 then s[i] == '-' else IsLowerHexDigit(s[i])
  }

  /** A UUID is a single plain path name. */
  lemma UuidIsPlainName(id: string)
    requires IsUuid(id)
    ensures '/' !in id && '\0' !in id
  {
  }

  /**
   * `uploadPhoto`: `photoId` is the generated UUID and `now` the clock reading.  The photo's URL
   * is the stored name `<uuid>.<ext>`, the file lands directly in the storage root, and the photo
   * can be retrieved by its URL; a storage failure propagates and stores nothing.
   */
  method UploadPhoto(storage: Storage, file: MultipartFile, photoId: string, now: Instant, cleanPath: string -> string, ioOk: bool)
    returns (r: Result<Photo, Exception>)
    requires storage.Valid() && storage.initialized && IsUuid(photoId)
    modifies storage`files, storage`dirs
    ensures storage.Valid()
    ensures Screen(file, cleanPath).Failure? ==> r == Failure(Screen(file, cleanPath).error) && storage.files == old(storage.files)
    ensures r.Failure? ==> storage.files == old(storage.files) && storage.dirs == old(storage.dirs)
    ensures r.Success? <==>
      Screen(file, cleanPath).Success? &&
      old(storage.Writable(Path(true, storage.rootLocation.names + [photoId + "." + Screen(file, cleanPath).value]), ioOk))
    ensures r.Success? ==>
      && r.value == Photo(photoId + "." + Screen(file, cleanPath).value, now)
      && storage.files == old(storage.files)[storage.rootLocation.names + [r.value.url] := file.content]
      && storage.dirs == old(storage.dirs) - {storage.rootLocation.names + [r.value.url]}
      && GetPhotoAsResource(storage, r.value.url).Success? && GetPhotoAsResource(storage, r.value.url).value.Some?
  {
    UuidIsPlainName(photoId);
    if Screen(file, cleanPath).Success? {
      PlainNameStoredInRoot(file, photoId, storage.rootLocation, cleanPath);
    }
    var stored := storage.Store(file, photoId, cleanPath, ioOk);
    match stored
    case Failure(e) => return Failure(e);
    case Success(url) => return Success(Photo(url, now));
  }

  /** `getPhotoAsResource`: the storage lookup of the given name; a name holding NUL throws. */
  function GetPhotoAsResource(storage: Storage, id: string): (r: Result<Option<Path>, Exception>)
    requires storage.initialized
    reads storage
    ensures r.Failure? <==> '\0' in id
    ensures r == storage.LoadAsResource(id)
  {
    storage.LoadAsResource(id)
  }
}

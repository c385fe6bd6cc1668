/**
 * The admin page's checks on a file picked for upload and on a stored file name to retrieve, and
 * the state its two handlers update.
 */
module AdminPage {
  import opened Wrappers
  import opened FrontendTypes
  import Text

  const MaxUploadSize := 5 * 1024 * 1024
  const FileTooLargeMessage := "File size must be under 5MB"
  const NotAnImageMessage := "Must be an image"
  const InvalidFilenameMessage := "Invalid filename format."

  /** `fileSchema`'s issues, in the order its refinements report them (both always run). */
  function FileIssues(file: FileInfo): (r: seq<string>)
    ensures r == [] <==> file.size < 5 * 1024 * 1024 && Text.StartsWith(file.mimeType, "image/")
    ensures r != [] ==> r[0] == (if file.size >= MaxUploadSize then FileTooLargeMessage else NotAnImageMessage)
  {
    (if file.size < MaxUploadSize then [] else [FileTooLargeMessage])
    + (if Text.StartsWith(file.mimeType, "image/") then [] else [NotAnImageMessage])
  }

  /** The characters `[\w,\s-]` admits. */
  predicate IsNameChar(c: char) {
    Text.IsWordChar(c) || c == ',' || Text.IsJsWhitespace(c) || c == '-'
  }

  /** The name, a '.', then exactly `n` ASCII letters to the end. */
  predicate HasExtensionOfLength(s: string, n: nat) {
    && |s| >= n + 2
    && s[|s| - n - 1] == '.'
    && (forall i | |s| - n <= i < |s| :: Text.IsAsciiLetter(s[i]))
    && (forall i | 0 <= i < |s| - n - 1 :: IsNameChar(s[i]))
  }

  /**
   * `^[\w,\s-]+\.[A-Za-z]{3,4}$`: since '.' is neither a name character nor a letter, the one '.'
   * splits a non-empty name from a three- or four-letter extension.
   */
  predicate MatchesFilenamePattern(s: string) {
    HasExtensionOfLength(s, 3) || HasExtensionOfLength(s, 4)
  }

  /** `filenameSchema`: at least one character and the pattern. */
  predicate FilenameAccepted(s: string) {
    |s| >= 1 && MatchesFilenamePattern(s)
  }

  /** A matching name holds exactly one '.', so the length check adds nothing to the pattern. */
  lemma FilenamePatternShape(s: string)
    requires MatchesFilenamePattern(s)
    ensures FilenameAccepted(s)
    ensures exists k | 0 < k < |s| - 3 :: s[k] == '.' && forall j | 0 <= j < |s| && j != k :: s[j] != '.'
  {
    var n := if HasExtensionOfLength(s, 3) then 3 else 4;
    var k := |s| - n - 1;
    assert forall j | 0 <= j < |s| && j != k :: s[j] != '.' by {
      forall j | 0 <= j < |s| && j != k ensures s[j] != '.' {
        if j < k { assert IsNameChar(s[j]); } else { assert Text.IsAsciiLetter(s[j]); }
      }
    }
  }

  /** How the photo request ended: a blob URL for the image, a non-OK status, or a thrown error. */
  datatype FetchOutcome = Fetched(blobUrl: string) | NotOk(statusText: string) | Failed(message: string)

  class Admin {
    var selectedFile: Option<FileInfo>
    /** The upload panel's error message. */
    var error: Option<string>
    /** Whether an upload response is shown. */
    var hasResponse: bool
    var filename: string
    var retrievedImage: Option<string>
    var retrieveError: Option<string>

    constructor ()
      ensures selectedFile.None? && error.None? && !hasResponse && filename == ""
      ensures retrievedImage.None? && retrieveError.None?
    {
      selectedFile := None;
      error := None;
      hasResponse := false;
      filename := "";
      retrievedImage := None;
      retrieveError := None;
    }

    /**
     * `handleFileSelect`: clears the previous response and error; a file that fails the checks is
     * dropped and the first issue is shown, an acceptable one is selected.
     */
    method HandleFileSelect(file: Option<FileInfo>)
      modifies this`selectedFile, this`error, this`hasResponse
      ensures !hasResponse
      ensures file.None? ==> selectedFile.None? && error.None?
      ensures file.Some? && FileIssues(file.value) != [] ==> selectedFile.None? && error == Some(FileIssues(file.value)[0])
      ensures file.Some? && FileIssues(file.value) == [] ==> selectedFile == file && error.None?
    {
      hasResponse := false;
      error := None;
      if file.None? {
        selectedFile := None;
        return;
      }
      var issues := FileIssues(file.value);
      if issues != [] {
        error := Some(issues[0]);
        selectedFile := None;
      } else {
        selectedFile := file;
      }
    }

    /**
     * `handleRetrievePhoto`: a blank name does nothing; a malformed one reports the format error
     * without a request; otherwise "/api/photos/<name>" is requested (the returned path) and its
     * outcome shown.
     */
    method HandleRetrievePhoto(outcome: FetchOutcome) returns (requested: Option<string>)
      modifies this`retrievedImage, this`retrieveError
      ensures Text.JsTrim(filename) == [] ==>
        requested.None? && retrievedImage == old(retrievedImage) && retrieveError == old(retrieveError)
      ensures Text.JsTrim(filename) != [] && !FilenameAccepted(filename) ==>
        requested.None? && retrievedImage == old(retrievedImage) && retrieveError == Some(InvalidFilenameMessage)
      ensures Text.JsTrim(filename) != [] && FilenameAccepted(filename) ==>
        && requested == Some("/api/photos/" + filename)
        && (outcome.Fetched? ==> retrievedImage == Some(outcome.blobUrl) && retrieveError.None?)
        && (outcome.NotOk? ==> retrievedImage.None? && retrieveError == Some("Failed to retrieve photo: " + outcome.statusText))
        && (outcome.Failed? ==> retrievedImage.None? && retrieveError == Some(outcome.message))
    {
      var name := filename;
      var blank := Text.JsTrim(name) == [];
      var accepted := FilenameAccepted(name);
      if blank {
        return None;
      }
      if !accepted {
        retrieveError := Some(InvalidFilenameMessage);
        return None;
      }
      retrievedImage := None;
      retrieveError := None;
      requested := Some("/api/photos/" + name);
      match outcome
      case Fetched(blobUrl) => retrievedImage := Some(blobUrl);
      case NotOk(statusText) => retrieveError := Some("Failed to retrieve photo: " + statusText);
      case Failed(message) => retrieveError := Some(message);
    }
  }
}

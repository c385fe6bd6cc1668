/**
 * The file-system storage service: a chain of guards that an upload must pass, then a copy that
 * replaces whatever file sits at `<root>/<name>.<ext>`, and a lookup by stored name.
 *
 * The directory tree is a map from absolute, normal paths (their names) to file contents, plus the
 * set of directories.  Spring's `StringUtils.cleanPath` is a parameter, as is the outcome of the
 * I/O calls.
 */
module FileSystemStorage {
  import opened Wrappers
  import opened Domain
  import opened Paths
  import Text

  /** 5 MiB; the size message prints `MaxFileSize / (1024 * 1024)`, i.e. 5. */
  const MaxFileSize := 5 * 1024 * 1024

  const AllowedExtensions: set<string> := {"jpg", "jpeg", "png", "gif"}

  const EmptyFileMessage := "Cannot save an empty file"
  const TooLargeMessage := "File too large. Max size is 5MB"
  const InvalidNameMessage := "Invalid original filename"
  const MissingExtensionMessage := "Missing file extension"
  const OutsideRootMessage := "Cannot store file outside the configured directory"
  const CopyFailedMessage := "Failed to store file"
  const InitFailedMessage := "Could not initialize storage location"

  /** An uploaded multipart file: its bytes, and the client's file name and content type (each may be null). */
  datatype MultipartFile = MultipartFile(content: seq<byte>, originalFilename: Option<string>, contentType: Option<string>)

  /** Where a file that passed every guard goes: the name returned to the caller and the normalized target path. */
  datatype Placement = Placement(finalName: string, destination: Path)

  /** Spring's `StringUtils.getFilenameExtension`: the text after the last '.', none when no '.' follows the last '/'. */
  function FilenameExtension(path: string): (r: Option<string>)
    ensures r.Some? ==>
      && '.' !in r.value && '/' !in r.value && |r.value| < |path|
      && path == path[..|path| - |r.value| - 1] + "." + r.value
    ensures r.None? ==> '.' !in path || exists i, j | 0 <= i < j < |path| :: path[i] == '.' && path[j] == '/'
  {
    var dot := Text.LastIndexOf(path, '.');
    if dot == -1 then None
    else if Text.LastIndexOf(path, '/') > dot then None
    else
      var ext := path[dot + 1..];
      assert forall i | 0 <= i < |ext| :: ext[i] == path[dot + 1 + i];
      assert path == path[..dot] + "." + ext;
      Some(ext)
  }

  /** Java's rendering of a possibly-null string in a concatenation. */
  function Shown(s: Option<string>): string {
    s.GetOr("null")
  }

  /** Where `root.resolve(name)` lands once the file system has resolved "." and "..". */
  function Located(root: Path, name: string): Option<Path> {
    match Parse(name)
    case None => None
    case Some(p) => Some(Normalize(Resolve(root, p)))
  }

  /**
   * The guards of `store` on the upload itself, in the order the source checks them; the first
   * that fails decides the exception.  Passing them yields the lower-cased extension.
   */
  function Screen(file: MultipartFile, cleanPath: string -> string): (r: Result<string, Exception>)
    ensures r.Success? ==>
      && 0 < |file.content| <= MaxFileSize
      && file.contentType.Some? && Text.StartsWith(file.contentType.value, "image/")
      && file.originalFilename.Some? && !Text.JavaIsBlank(cleanPath(file.originalFilename.value))
      && FilenameExtension(cleanPath(file.originalFilename.value)).Some?
      && r.value == Text.ToLower(FilenameExtension(cleanPath(file.originalFilename.value)).value)
      && r.value in AllowedExtensions
    ensures
      && 0 < |file.content| <= MaxFileSize
      && file.contentType.Some? && Text.StartsWith(file.contentType.value, "image/")
      && file.originalFilename.Some? && !Text.JavaIsBlank(cleanPath(file.originalFilename.value))
      && FilenameExtension(cleanPath(file.originalFilename.value)).Some?
      && Text.ToLower(FilenameExtension(cleanPath(file.originalFilename.value)).value) in AllowedExtensions
      ==> r.Success?
    ensures r.Failure? ==> r.error.Storage?
  {
    if |file.content| == 0 then Failure(Storage(EmptyFileMessage))
    else if |file.content| > MaxFileSize then Failure(Storage(TooLargeMessage))
    else
      var original := if file.originalFilename.Some? then Some(cleanPath(file.originalFilename.value)) else None;
      if original.None? || Text.JavaIsBlank(original.value) then Failure(Storage(InvalidNameMessage))
      else
        match FilenameExtension(original.value)
        case None => Failure(Storage(MissingExtensionMessage))
        case Some(raw) =>
          var extension := Text.ToLower(raw);
          if extension !in AllowedExtensions then Failure(Storage("Unsupported file type: " + extension))
          else if file.contentType.None? || !Text.StartsWith(file.contentType.value, "image/") then
            Failure(Storage("Unsupported content type: " + Shown(file.contentType)))
          else Success(extension)
  }

  /**
   * The last guard: the stored name must land inside the root.  A NUL in the name makes path
   * parsing throw, which is not a storage exception.
   */
  function Place(finalName: string, root: Path): (r: Result<Placement, Exception>)
    ensures r.Success? ==>
      && r.value.finalName == finalName
      && Located(root, finalName) == Some(r.value.destination)
      && StartsWith(r.value.destination, root)
    ensures r.Failure? ==>
      || ('\0' in finalName && r.error == InvalidPath(finalName))
      || (var target := Located(root, finalName); target.Some? && !StartsWith(target.value, root) && r.error == Storage(OutsideRootMessage))
  {
    match Located(root, finalName)
    case None => Failure(InvalidPath(finalName))
    case Some(destination) =>
      if !StartsWith(destination, root) then Failure(Storage(OutsideRootMessage))
      else Success(Placement(finalName, destination))
  }

  /** Every guard of `store` ahead of the copy: the upload's, then the destination's. */
  function Plan(file: MultipartFile, fileName: string, root: Path, cleanPath: string -> string): (r: Result<Placement, Exception>)
    ensures r.Success? ==> Screen(file, cleanPath).Success? && r.value.finalName == fileName + "." + Screen(file, cleanPath).value
    ensures Screen(file, cleanPath).Failure? ==> r == Failure(Screen(file, cleanPath).error)
    ensures Screen(file, cleanPath).Success? ==> r == Place(fileName + "." + Screen(file, cleanPath).value, root)
  {
    match Screen(file, cleanPath)
    case Failure(e) => Failure(e)
    case Success(extension) => Place(fileName + "." + extension, root)
  }

  /** The names of every directory from the file-system root down to `names`. */
  function Ancestors(names: seq<string>): (r: set<seq<string>>)
    ensures names in r && [] in r
  {
    assert names == names[..|names|] && [] == names[..0];
    set k | 0 <= k <= |names| :: names[..k]
  }

  function Parent(names: seq<string>): seq<string> {
    if names == [] then [] else names[..|names| - 1]
  }

  class Storage {
    /** `app.storage.location`, "uploads" unless configured. */
    const storageLocation: string
    var rootLocation: Path
    /** Whether `init` has run to completion. */
    var initialized: bool
    /** Regular files, keyed by the names of their absolute normal path. */
    var files: map<seq<string>, seq<byte>>
    /** Directories, likewise. */
    var dirs: set<seq<string>>

    ghost predicate Valid()
      reads this
    {
      initialized ==> rootLocation.absolute && IsNormal(rootLocation)
    }

    constructor (storageLocation: string, files: map<seq<string>, seq<byte>>, dirs: set<seq<string>>)
      ensures Valid() && !initialized
      ensures this.storageLocation == storageLocation && this.files == files && this.dirs == dirs
    {
      this.storageLocation := storageLocation;
      this.files := files;
      this.dirs := dirs;
      rootLocation := Path(true, []);
      initialized := false;
    }

    /**
     * `init`: the root is the configured location made absolute against the working directory
     * `cwd` and normalized; then it and its ancestors are created (`createOk` is the outcome of
     * that I/O call).
     */
    method Init(cwd: Path, createOk: bool) returns (r: Result<Path, Exception>)
      requires cwd.absolute && Valid()
      modifies this
      ensures files == old(files)
      ensures Valid()
      ensures Parse(storageLocation).None? ==> r == Failure(InvalidPath(storageLocation)) && unchanged(this)
      ensures Parse(storageLocation).Some? ==>
        var given := Parse(storageLocation).value;
        && rootLocation == Normalize(if given.absolute then given else Resolve(cwd, given))
        && (createOk ==> r == Success(rootLocation) && initialized && dirs == old(dirs) + Ancestors(rootLocation.names))
        && (!createOk ==> r == Failure(Storage(InitFailedMessage)) && initialized == old(initialized) && dirs == old(dirs))
    {
      var given := Parse(storageLocation);
      if given.None? {
        return Failure(InvalidPath(storageLocation));
      }
      var absolute := if given.value.absolute then given.value else Resolve(cwd, given.value);
      var root := Normalize(absolute);
      NormalizeIsNormal(absolute);
      // the root is assigned before the directories are created
      rootLocation := root;
      if !createOk {
        return Failure(Storage(InitFailedMessage));
      }
      dirs := dirs + Ancestors(root.names);
      initialized := true;
      r := Success(root);
    }

    /** Nothing lies inside the directory `names`. */
    predicate EmptyDirectory(names: seq<string>)
      reads this
    {
      (forall k | k in files :: !(names < k)) && (forall d | d in dirs :: !(names < d))
    }

    /**
     * `Files.copy(..., REPLACE_EXISTING)` succeeds: the I/O call went through, the parent is a
     * directory, and the target is absent, a file, or an empty directory (all three are replaced).
     */
    predicate Writable(destination: Path, ioOk: bool)
      reads this
    {
      ioOk && Parent(destination.names) in dirs && (destination.names in dirs ==> EmptyDirectory(destination.names))
    }

    /**
     * `store`: every guard of Plan precedes the copy, so any failure leaves the files as they were;
     * on success the file at the destination is replaced and `<fileName>.<ext>` is returned.
     */
    method Store(file: MultipartFile, fileName: string, cleanPath: string -> string, ioOk: bool) returns (r: Result<string, Exception>)
      requires Valid() && initialized
      modifies this`files, this`dirs
      ensures Valid()
      ensures var plan := Plan(file, fileName, rootLocation, cleanPath);
        && (plan.Failure? ==> r == Failure(plan.error) && files == old(files) && dirs == old(dirs))
        && (plan.Success? && old(Writable(plan.value.destination, ioOk)) ==>
              && r == Success(plan.value.finalName)
              && files == old(files)[plan.value.destination.names := file.content]
              && dirs == old(dirs) - {plan.value.destination.names})
        && (plan.Success? && !old(Writable(plan.value.destination, ioOk)) ==>
              r == Failure(Storage(CopyFailedMessage)) && files == old(files) && dirs == old(dirs))
      ensures r.Success? ==> LoadAsResource(r.value).Success? && LoadAsResource(r.value).value.Some?
    {
      var plan := Plan(file, fileName, rootLocation, cleanPath);
      if plan.Failure? {
        return Failure(plan.error);
      }
      var destination := plan.value.destination;
      if !Writable(destination, ioOk) {
        return Failure(Storage(CopyFailedMessage));
      }
      files := files[destination.names := file.content];
      dirs := dirs - {destination.names};
      r := Success(plan.value.finalName);
    }

    /**
     * `loadAsResource`: resolves the name under the root WITHOUT normalizing or checking the
     * prefix, and yields the resource when something exists there.  A NUL in the name makes path
     * parsing throw, and that exception is not caught.
     */
    function LoadAsResource(fileName: string): (r: Result<Option<Path>, Exception>)
      requires initialized
      reads this
      ensures r.Failure? <==> '\0' in fileName
      ensures r.Success? ==>
        var target := Located(rootLocation, fileName).value.names;
        (r.value.Some? <==> target in files || target in dirs)
      ensures r.Success? && r.value.Some? ==> r.value.value == Resolve(rootLocation, Parse(fileName).value)
    {
      match Parse(fileName)
      case None => Failure(InvalidPath(fileName))
      case Some(name) =>
        var resource := Resolve(rootLocation, name);
        var target := Normalize(resource).names;
        if target in files || target in dirs then Success(Some(resource)) else Success(None)
    }
  }

  /** An empty upload is refused before anything else is looked at. */
  lemma EmptyFileRejectedFirst(file: MultipartFile, cleanPath: string -> string)
    requires |file.content| == 0
    ensures Screen(file, cleanPath) == Failure(Storage(EmptyFileMessage))
  {
  }

  /** The size guard refuses more than 5 MiB of content. */
  lemma TooLargeRejected(file: MultipartFile, cleanPath: string -> string)
    requires |file.content| > 5 * 1024 * 1024
    ensures Screen(file, cleanPath) == Failure(Storage(TooLargeMessage))
  {
  }

  /** The limit is inclusive: a file of exactly 5 MiB is treated like any other non-empty file. */
  lemma ExactLimitAccepted(file: MultipartFile, cleanPath: string -> string)
    requires |file.content| == 5 * 1024 * 1024
    ensures Screen(file, cleanPath) == Screen(file.(content := [0]), cleanPath)
  {
  }

  /** A null or blank file name, after cleaning, is refused once the size is acceptable. */
  lemma BlankNameRejected(file: MultipartFile, cleanPath: string -> string)
    requires 0 < |file.content| <= MaxFileSize
    requires file.originalFilename.None? || Text.JavaIsBlank(cleanPath(file.originalFilename.value))
    ensures Screen(file, cleanPath) == Failure(Storage(InvalidNameMessage))
  {
  }

  /** Extension rules: a name with no extension, or one whose lower-cased form is not an image type, is refused. */
  lemma ExtensionGuard(file: MultipartFile, cleanPath: string -> string)
    requires 0 < |file.content| <= MaxFileSize
    requires file.originalFilename.Some? && !Text.JavaIsBlank(cleanPath(file.originalFilename.value))
    ensures var ext := FilenameExtension(cleanPath(file.originalFilename.value));
      && (ext.None? ==> Screen(file, cleanPath) == Failure(Storage(MissingExtensionMessage)))
      && (ext.Some? && Text.ToLower(ext.value) !in AllowedExtensions ==>
            Screen(file, cleanPath) == Failure(Storage("Unsupported file type: " + Text.ToLower(ext.value))))
  {
  }

  /** A missing content type, or one not starting with "image/" (case-sensitive), is refused after the extension checks. */
  lemma ContentTypeGuard(file: MultipartFile, cleanPath: string -> string)
    requires 0 < |file.content| <= MaxFileSize
    requires file.originalFilename.Some? && !Text.JavaIsBlank(cleanPath(file.originalFilename.value))
    requires var ext := FilenameExtension(cleanPath(file.originalFilename.value));
      ext.Some? && Text.ToLower(ext.value) in AllowedExtensions
    requires file.contentType.None? || !Text.StartsWith(file.contentType.value, "image/")
    ensures Screen(file, cleanPath) == Failure(Storage("Unsupported content type: " + Shown(file.contentType)))
  {
  }

  /** `Segments` of "../name" for a single name. */
  lemma {:induction false} SegmentsOfParentName(name: string)
    requires name != [] && '/' !in name
    ensures Segments("../" + name, []) == ["..", name]
  {
    var s := "../" + name;
    var t := s[1..];
    var u := s[2..];
    assert s[0] == '.' && t[0] == '.' && u[0] == '/';
    assert t[1..] == u && u[1..] == name;
    SegmentsOfName(name, []);
    assert [] + name == name;
    calc {
      Segments(s, []);
      Segments(t, [] + [s[0]]);
      { assert [] + [s[0]] == "."; }
      Segments(t, ".");
      Segments(u, "." + [t[0]]);
      { assert "." + [t[0]] == ".."; }
      Segments(u, "..");
      [".."] + Segments(name, []);
    }
  }

  /** "../<name>" under "/srv/uploads" resolves to "/srv/<name>". */
  lemma {:induction false} ParentNameLocated(name: string)
    requires name != [] && '/' !in name && '\0' !in name && name != "." && name != ".."
    ensures Parse("../" + name) == Some(Path(false, ["..", name]))
    ensures Located(Path(true, ["srv", "uploads"]), "../" + name) == Some(Path(true, ["srv", name]))
  {
    SegmentsOfParentName(name);
    assert '\0' !in "../" + name;
    var joined := ["srv", "uploads", "..", name];
    assert Parse("../" + name) == Some(Path(false, ["..", name]));
    assert ["srv", "uploads"] + ["..", name] == joined;
    calc {
      NormalizeNames(true, [], joined);
      { assert joined[0] == "srv" && [] + ["srv"] == ["srv"]; }
      NormalizeNames(true, ["srv"], joined[1..]);
      { assert joined[1..][0] == "uploads" && joined[1..][1..] == joined[2..] && ["srv"] + ["uploads"] == ["srv", "uploads"]; }
      NormalizeNames(true, ["srv", "uploads"], joined[2..]);
      { assert joined[2..][0] == ".." && joined[2..][1..] == joined[3..] && ["srv", "uploads"][..1] == ["srv"]; }
      NormalizeNames(true, ["srv"], joined[3..]);
      { assert joined[3..] == [name] && ["srv"] + [name] == ["srv", name]; }
      NormalizeNames(true, ["srv", name], []);
    }
  }

  /** A desired name that climbs out of the root is refused: "../<name>" under "/srv/uploads" lands in "/srv". */
  lemma EscapingNameRejected(name: string)
    requires name != [] && '/' !in name && '\0' !in name && name != "." && name != ".." && name != "uploads"
    ensures Place("../" + name, Path(true, ["srv", "uploads"])) == Failure(Storage(OutsideRootMessage))
  {
    ParentNameLocated(name);
    assert ["srv", name][1] != "uploads";
  }

  /**
   * A stored name that is a single plain name (a generated UUID with its extension, say) lands
   * directly in the root.
   */
  lemma PlainNamePlacedInRoot(finalName: string, root: Path)
    requires root.absolute && IsNormal(root)
    requires finalName != [] && '/' !in finalName && '\0' !in finalName && finalName != "." && finalName != ".."
    ensures Place(finalName, root) == Success(Placement(finalName, Path(true, root.names + [finalName])))
  {
    SegmentsOfName(finalName, []);
    assert [] + finalName == finalName && finalName[0] != '/';
    assert Parse(finalName) == Some(Path(false, [finalName]));
    var names := root.names + [finalName];
    assert Resolve(root, Path(false, [finalName])) == Path(true, names);
    assert forall i | 0 <= i < |names| :: names[i] != "." && names[i] != ".." by {
      forall i | 0 <= i < |names| ensures names[i] != "." && names[i] != ".." {
        if i < |root.names| { assert names[i] == root.names[i]; }
      }
    }
    NormalizePlainNames(true, [], names);
    assert [] + names == names;
    assert root.names <= names;
  }

  /** An upload that passes the upload guards, stored under a desired name without '/' or NUL, goes to `<root>/<name>.<ext>`. */
  lemma PlainNameStoredInRoot(file: MultipartFile, fileName: string, root: Path, cleanPath: string -> string)
    requires root.absolute && IsNormal(root)
    requires '/' !in fileName && '\0' !in fileName
    requires Screen(file, cleanPath).Success?
    ensures var finalName := fileName + "." + Screen(file, cleanPath).value;
      Plan(file, fileName, root, cleanPath) == Success(Placement(finalName, Path(true, root.names + [finalName])))
  {
    var ext := Screen(file, cleanPath).value;
    ExtensionTailIsPlain(ext);
    var finalName := fileName + ("." + ext);
    assert finalName == fileName + "." + ext;
    PlainNamePlacedInRoot(finalName, root);
  }

  /** A '.' followed by an allowed extension holds no '/' or NUL and is at least four characters long. */
  lemma ExtensionTailIsPlain(ext: string)
    requires ext in AllowedExtensions
    ensures var tail := "." + ext; '/' !in tail && '\0' !in tail && |tail| >= 4
  {
    var tail := "." + ext;
    if ext == "jpg" { assert tail == ".jpg"; }
    else if ext == "jpeg" { assert tail == ".jpeg"; }
    else if ext == "png" { assert tail == ".png"; }
    else { assert tail == ".gif"; }
  }

  /**
   * Loading does not check that the name stays under the root: "../secret" next to the root
   * "/srv/uploads" finds the file "/srv/secret".
   */
  lemma LoadMayLeaveRoot(storage: Storage)
    requires storage.initialized && storage.rootLocation == Path(true, ["srv", "uploads"])
    requires ["srv", "secret"] in storage.files
    ensures storage.LoadAsResource("../secret") == Success(Some(Path(true, ["srv", "uploads", "..", "secret"])))
  {
    assert "../secret" == "../" + "secret";
    ParentNameLocated("secret");
    assert Resolve(storage.rootLocation, Path(false, ["..", "secret"])) == Path(true, ["srv", "uploads", "..", "secret"]);
  }
}

/** The upload middleware: where an upload is stored and under which name, which files are
    accepted, how upload errors are answered, the minimum image size, and the removal of the
    uploaded files when the response reports an error. */
module MulterMiddleware {
  import opened JsRuntime
  import opened Http
  import ProductController

  // ---------------------------------------------------------------------------
  // Destination
  // ---------------------------------------------------------------------------

  /** The directory an upload of form field `fieldname` goes to. */
  function UploadDirectory(fieldname: string): (r: string)
    ensures StartsWith(r, "uploads/") && r[|r| - 1] == '/'
    ensures fieldname == "productImages" ==> r == "uploads/products/"
    ensures fieldname == "avatar" ==> r == "uploads/avatars/"
    ensures fieldname != "productImages" && fieldname != "avatar" ==> r == "uploads/others/"
  {
    "uploads/" + (if fieldname == "productImages" then "products/" else if fieldname == "avatar" then "avatars/" else "others/")
  }

  /** `destination`: the path is built by appending the sub-directory to `uploads/`. */
  method Destination(fieldname: string) returns (uploadPath: string)
    ensures uploadPath == UploadDirectory(fieldname)
  {
    uploadPath := "uploads/";
    if fieldname == "productImages" {
      uploadPath := uploadPath + "products/";
    } else if fieldname == "avatar" {
      uploadPath := uploadPath + "avatars/";
    } else {
      uploadPath := uploadPath + "others/";
    }
  }

  /** The image URLs the catalogue records for uploaded product images are `/` followed by
      the directory where the product images are stored and the file name. */
  lemma ProductImageUrlsPointToStore(filenames: seq<string>, altText: Option<string>)
    ensures var images := ProductController.UploadedImages(filenames, altText);
            forall i :: 0 <= i < |images| ==> images[i].url == "/" + UploadDirectory("productImages") + filenames[i]
  {
    assert "/" + UploadDirectory("productImages") == ProductController.UploadPrefix;
  }

  // ---------------------------------------------------------------------------
  // File name
  // ---------------------------------------------------------------------------

  /** Drops the `/` characters at the end. */
  function StripTrailingSlashes(s: string): (r: string)
    ensures |r| <= |s| && r == s[..|r|]
    ensures r == [] || r[|r| - 1] != '/'
  {
    if s != [] && s[|s| - 1] == '/' then StripTrailingSlashes(s[..|s| - 1]) else s
  }

  /** What follows the last `/`. */
  function LastComponent(s: string): (r: string)
    ensures |r| <= |s| && r == s[|s| - |r|..]
    ensures '/' !in r
  {
    if s == [] || s[|s| - 1] == '/' then [] else LastComponent(s[..|s| - 1]) + [s[|s| - 1]]
  }

  /** The index of the last `.`, if any. */
  function LastDot(s: string): (r: Option<nat>)
    ensures r.Some? ==> r.value < |s| && s[r.value] == '.' && '.' !in s[r.value + 1..]
    ensures r.None? ==> '.' !in s
  {
    if s == [] then None
    else if s[|s| - 1] == '.' then Some(|s| - 1)
    else
      var d := LastDot(s[..|s| - 1]);
      assert s == s[..|s| - 1] + [s[|s| - 1]];
      if d.Some? then assert s[d.value + 1..] == s[..|s| - 1][d.value + 1..] + [s[|s| - 1]]; d else d
  }

  /** `path.extname` of a name without `/`: from the last `.` on, except that a name whose
      only dot is its first character, or the name `..`, has no extension. */
  function ExtOfBase(b: string): (r: string)
    requires '/' !in b
    ensures Extension(r)
  {
    match LastDot(b)
    case None => ""
    case Some(d) =>
      if d == 0 || b == ".." then ""
      else
        assert b[d..][1..] == b[d + 1..];
        assert forall k :: 0 <= k < |b| - d ==> b[d..][k] == b[d + k];
        b[d..]
  }

  /** `path.extname`: the extension of the last path component, trailing `/` ignored. */
  function ExtName(path: string): (r: string)
    ensures Extension(r)
  {
    ExtOfBase(LastComponent(StripTrailingSlashes(path)))
  }

  lemma {:induction false} LastComponentOfPlainName(s: string)
    requires '/' !in s
    ensures LastComponent(s) == s
  {
    if s != [] {
      assert s == s[..|s| - 1] + [s[|s| - 1]];
      LastComponentOfPlainName(s[..|s| - 1]);
    }
  }

  /** The shape `path.extname` returns: empty, or a dot followed by neither dots nor slashes. */
  predicate Extension(e: string)
  {
    e == "" || (e[0] == '.' && '.' !in e[1..] && '/' !in e)
  }

  /** The last dot of `p + e`, when `e` starts with the only dot it holds, is the one of `e`. */
  lemma LastDotOfExtension(p: string, e: string)
    requires e != [] && e[0] == '.' && '.' !in e[1..]
    ensures LastDot(p + e) == Some(|p|)
  {
    assert (p + e)[|p|] == '.';
    assert (p + e)[|p| + 1..] == e[1..];
  }

  lemma NoSlashInConcat(b: string, e: string)
    requires '/' !in b && '/' !in e
    ensures '/' !in b + e
  {
    var name := b + e;
    forall k | 0 <= k < |name| ensures name[k] != '/' {
      if k < |b| { assert name[k] == b[k]; } else { assert name[k] == e[k - |b|]; }
    }
  }

  /** Without a slash, the last path component is the whole path. */
  lemma ExtNameOfPlainPath(s: string)
    requires '/' !in s
    ensures ExtName(s) == ExtOfBase(s)
  {
    assert StripTrailingSlashes(s) == s by {
      if s != [] { assert s[|s| - 1] in s; }
    }
    LastComponentOfPlainName(s);
  }

  /** A name without slashes or dots followed by an extension has that extension. */
  lemma ExtNameAfterPlainName(b: string, e: string)
    requires b != [] && '.' !in b && '/' !in b && Extension(e)
    ensures ExtName(b + e) == e
  {
    var name := b + e;
    NoSlashInConcat(b, e);
    ExtNameOfPlainPath(name);
    if e == "" {
      assert name == b;
    } else {
      LastDotOfExtension(b, e);
      assert name[0] == b[0] && b[0] in b;
      assert name != "..";
      assert name[|b|..] == e;
    }
  }

  /** The part from the last dot on is the extension. */
  lemma ImageNameExtension()
    ensures ExtName("cake.png") == ".png"
  {
    assert "cake.png" == "cake" + ".png";
    assert '.' !in "cake" && '/' !in "cake";
    assert Extension(".png");
    ExtNameAfterPlainName("cake", ".png");
  }

  /** A name whose only dot leads it has no extension. */
  lemma LeadingDotIsNoExtension()
    ensures ExtName(".hidden") == ""
  {
    var name := ".hidden";
    assert '/' !in name;
    assert StripTrailingSlashes(name) == name;
    LastComponentOfPlainName(name);
    assert LastDot(name) == Some(0) by {
      assert "" + name == name;
      LastDotOfExtension("", name);
    }
  }

  /** `${Date.now()}-${uniqueSuffix}${path.extname(file.originalname)}`, for the time and the
      32 random hexadecimal digits given. */
  function StoredFilename(now: nat, uniqueSuffix: string, originalname: string): string
  {
    NatToString(now) + "-" + uniqueSuffix + ExtName(originalname)
  }

  /** The stored file keeps the extension of the original, whatever the time and provided
      the random part holds no dot or slash. */
  lemma StoredFilenameKeepsExtension(now: nat, uniqueSuffix: string, originalname: string)
    requires '.' !in uniqueSuffix && '/' !in uniqueSuffix
    ensures ExtName(StoredFilename(now, uniqueSuffix, originalname)) == ExtName(originalname)
  {
    var digits := NatToString(now);
    var b := digits + "-" + uniqueSuffix;
    assert forall k :: 0 <= k < |b| ==> b[k] != '.' && b[k] != '/' by {
      forall k | 0 <= k < |b| ensures b[k] != '.' && b[k] != '/' {
        if k < |digits| {
          assert b[k] == digits[k] && IsDigitIn(digits[k], 10);
        } else if k > |digits| {
          assert b[k] == uniqueSuffix[k - |digits| - 1];
          assert b[k] in uniqueSuffix;
        }
      }
    }
    ExtNameAfterPlainName(b, ExtName(originalname));
  }

  // ---------------------------------------------------------------------------
  // File filter
  // ---------------------------------------------------------------------------

  /** The keys of `allowedTypes`. */
  predicate AllowedType(mimetype: string)
  {
    mimetype == "image/jpeg" || mimetype == "image/png" || mimetype == "image/webp"
  }

  const InvalidFileType := "Invalid file type. Only JPEG, PNG and WebP files are allowed."

  /** `fileFilter`: accept, or reject with an error. */
  function FileFilter(mimetype: string): (r: Option<string>)
    ensures r.None? <==> AllowedType(mimetype)
    ensures r.Some? ==> r.value == InvalidFileType
  {
    if AllowedType(mimetype) then None else Some(InvalidFileType)
  }

  // ---------------------------------------------------------------------------
  // Upload errors
  // ---------------------------------------------------------------------------

  /** The error the upload stage passes on: none, one raised by the upload library with a
      code, or any other error (such as the file filter's). */
  datatype UploadError = NoError | LibraryError(code: string, message: string) | OtherError(message: string)

  /** The decision of `handleMulterError` and the line it logs, if any. */
  datatype ErrorHandling = ErrorHandling(decision: Decision, logged: Option<string>)

  function HandleMulterError(err: UploadError): (r: ErrorHandling)
    ensures r.decision.Next? <==> err.NoError?
    ensures r.decision.Reply? ==> r.decision.response.status == 400
    ensures err.OtherError? ==> r.decision == Reply(Fail(400, err.message))
  {
    match err
    case LibraryError(code, message) =>
      if code == "LIMIT_FILE_SIZE" then ErrorHandling(Reply(Fail(400, "File too large. Maximum size is 5MB.")), None)
      else if code == "LIMIT_FILE_COUNT" then ErrorHandling(Reply(Fail(400, "Too many files. Maximum is 10 files.")), None)
      else if code == "LIMIT_UNEXPECTED_FILE" then ErrorHandling(Reply(Fail(400, "Unexpected field name in upload.")), None)
      else ErrorHandling(Reply(Fail(400, "Error uploading file.")), Some("Multer Error: " + message))
    case OtherError(message) => ErrorHandling(Reply(Fail(400, message)), Some("File Upload Error: " + message))
    case NoError => ErrorHandling(Next, None)
  }

  /** The three limit codes have their own messages and log nothing; any other library code
      gets the generic message and is logged. */
  lemma LibraryErrorMessages(code: string, message: string)
    ensures var r := HandleMulterError(LibraryError(code, message));
            r.logged.None? <==> code in ["LIMIT_FILE_SIZE", "LIMIT_FILE_COUNT", "LIMIT_UNEXPECTED_FILE"]
    ensures var r := HandleMulterError(LibraryError(code, message));
            r.logged.Some? ==> r.decision == Reply(Fail(400, "Error uploading file."))
  {
  }

  /** A file the filter rejects reaches the client as a 400 carrying the filter's message. */
  lemma RejectedTypeAnswered(mimetype: string)
    requires !AllowedType(mimetype)
    ensures HandleMulterError(OtherError(FileFilter(mimetype).value)).decision == Reply(Fail(400, InvalidFileType))
  {
  }

  // ---------------------------------------------------------------------------
  // Image dimensions
  // ---------------------------------------------------------------------------

  /** What reading an image's metadata gives: its width and height, either of which may be
      missing, or the error of a file that cannot be read. */
  datatype Metadata = Metadata(width: Option<int>, height: Option<int>) | Unreadable(message: string)

  const MinimumSide := 400

  /** `metadata.width >= 400 && metadata.height >= 400`; a missing side compares false. */
  predicate LargeEnough(m: Metadata)
  {
    m.Metadata? && m.width.Some? && m.width.value >= MinimumSide && m.height.Some? && m.height.value >= MinimumSide
  }

  /** The first image, in upload order, that is unreadable or too small. */
  function FirstRejected(files: seq<Metadata>): (r: Option<nat>)
    ensures r.Some? ==> r.value < |files| && !LargeEnough(files[r.value])
    ensures r.Some? ==> forall i :: 0 <= i < r.value ==> LargeEnough(files[i])
    ensures r.None? <==> forall i :: 0 <= i < |files| ==> LargeEnough(files[i])
  {
    if files == [] then None
    else if !LargeEnough(files[0]) then Some(0)
    else match FirstRejected(files[1..])
      case None => None
      case Some(i) => Some(i + 1)
  }

  /** The message an image fails with: the read error, or the size message given. */
  function RejectionMessage(m: Metadata, tooSmall: string): string
  {
    if m.Unreadable? then m.message else tooSmall
  }

  const SingleTooSmall := "Image dimensions must be at least 400x400 pixels"
  const SomeTooSmall := "All images must be at least 400x400 pixels"

  /** `validateImageDimensions` for the single file and the file list of the request: the
      single file is checked first, then the list. */
  function ValidateImageDimensions(file: Option<Metadata>, files: Option<seq<Metadata>>): (r: Decision)
  {
    if file.Some? && !LargeEnough(file.value) then
      Reply(Fail(400, RejectionMessage(file.value, SingleTooSmall)))
    else if files.Some? && FirstRejected(files.value).Some? then
      Reply(Fail(400, RejectionMessage(files.value[FirstRejected(files.value).value], SomeTooSmall)))
    else Next
  }

  /** The request goes on exactly when every uploaded image can be read and is at least 400
      by 400; otherwise it is answered with 400. */
  lemma DimensionsDecision(file: Option<Metadata>, files: Option<seq<Metadata>>)
    ensures ValidateImageDimensions(file, files).Next? <==>
              (file.Some? ==> LargeEnough(file.value))
              && (files.Some? ==> forall i :: 0 <= i < |files.value| ==> LargeEnough(files.value[i]))
    ensures ValidateImageDimensions(file, files).Reply? ==> ValidateImageDimensions(file, files).response.status == 400
  {
  }

  /** A readable image that is too small is reported with the size message of its kind. */
  lemma TooSmallMessages(m: Metadata, files: seq<Metadata>)
    requires m.Metadata? && !LargeEnough(m)
    ensures ValidateImageDimensions(Some(m), None) == Reply(Fail(400, SingleTooSmall))
    ensures (forall i :: 0 <= i < |files| ==> files[i].Metadata?) && !(forall i :: 0 <= i < |files| ==> LargeEnough(files[i])) ==>
              ValidateImageDimensions(None, Some(files)) == Reply(Fail(400, SomeTooSmall))
  {
  }

  // ---------------------------------------------------------------------------
  // Clean-up on error
  // ---------------------------------------------------------------------------

  /** The paths of the request's uploads: `req.file` and `req.files`. */
  function Uploaded(file: Option<string>, files: Option<seq<string>>): (r: set<string>)
    ensures file.Some? ==> file.value in r
    ensures files.Some? ==> forall i :: 0 <= i < |files.value| ==> files.value[i] in r
  {
    (if file.Some? then {file.value} else {})
      + (if files.Some? then set i | 0 <= i < |files.value| :: files.value[i] else {})
  }

  /** The files on disk. */
  class UploadStore {
    var paths: set<string>

    constructor (paths: set<string>)
      ensures this.paths == paths
    {
      this.paths := paths;
    }

    /** `fs.unlink`. */
    method Unlink(path: string)
      modifies this
      ensures paths == old(paths) - {path}
    {
      paths := paths - {path};
    }

    /** `cleanupOnError`, when the response finishes: with a status of 400 or more every
        uploaded file is removed; otherwise nothing is. */
    method CleanupOnFinish(statusCode: int, file: Option<string>, files: Option<seq<string>>)
      modifies this
      ensures paths == old(paths) - (if statusCode >= 400 then Uploaded(file, files) else {})
    {
      if statusCode >= 400 {
        if file.Some? {
          Unlink(file.value);
        }
        if files.Some? {
          var list := files.value;
          for i := 0 to |list|
            invariant paths == old(paths) - (if file.Some? then {file.value} else {}) - (set k | 0 <= k < i :: list[k])
          {
            Unlink(list[i]);
            assert (set k | 0 <= k < i + 1 :: list[k]) == (set k | 0 <= k < i :: list[k]) + {list[i]};
          }
        }
      }
    }
  }
}

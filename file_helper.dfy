/** utils/file_helper.go: the upload configuration, the checks and naming of
    SaveUploadedFile, and the base URL. Opening, sniffing and writing the file
    are outside the model: their outcomes are parameters. */
module FileHelper {
  import opened Wrappers
  import opened GoStrings
  import opened Decimal
  import opened Models

  datatype UploadConfig = UploadConfig(folder: string, allowedExts: set<string>, allowedMime: set<string>, maxBytes: int)

  /** What the multipart header says about an uploaded file. */
  datatype FileHeader = FileHeader(filename: string, size: int)

  /** The error returned for each refusal; `IoFailure` stands for the error of
      opening the upload or creating or copying the destination file. */
  datatype UploadError = TooLarge | BadExtension | HeaderUnreadable | MimeMismatch | IoFailure

  datatype UploadResult = Stored(path: string) | Refused(err: UploadError)

  function ErrorText(e: UploadError): (s: string)
    ensures e.TooLarge? ==> s == "file too large (max 2MB)"
    ensures e.BadExtension? ==> s == "invalid file extension"
    ensures e.HeaderUnreadable? ==> s == "failed to read file header"
    ensures e.MimeMismatch? ==> s == "invalid file content (mime type mismatch)"
  {
    match e
    case TooLarge => "file too large (max 2MB)"
    case BadExtension => "invalid file extension"
    case HeaderUnreadable => "failed to read file header"
    case MimeMismatch => "invalid file content (mime type mismatch)"
    case IoFailure => "i/o error"
  }

  /** No ASCII upper-case letter. */
  predicate LowerCase(s: string)
  {
    forall i :: 0 <= i < |s| ==> !('A' <= s[i] <= 'Z')
  }

  /** A '.' followed by lower-case characters other than '.' and '/': the form
      ToLower(Ext(name)) takes for a name that has an extension. */
  predicate ExtForm(e: string)
  {
    |e| >= 2 && e[0] == '.' && LowerCase(e) && forall i :: 1 <= i < |e| ==> e[i] != '.' && e[i] != '/'
  }

  const ImageExts: set<string> := {".jpg", ".jpeg", ".png"}

  const ImageMimes: set<string> := {"image/jpeg", "image/png"}

  lemma ImageExtsInForm()
    ensures |ImageExts| == 3 && |ImageMimes| == 2
    ensures forall e :: e in ImageExts ==> ExtForm(e)
  {
    assert ".jpg"[1] != ".png"[1];
    assert "image/jpeg"[6] != "image/png"[6];
    forall e | e in ImageExts
      ensures ExtForm(e)
    {
      if e == ".jpg" {
        assert e == ['.', 'j', 'p', 'g'];
      } else if e == ".jpeg" {
        assert e == ['.', 'j', 'p', 'e', 'g'];
      } else {
        assert e == ['.', 'p', 'n', 'g'];
      }
    }
  }

  /** The image configuration: JPEG and PNG by extension and by sniffed type,
      at most 2 MiB. Every allowed extension has the form ToLower(Ext(name))
      takes, so each is reachable (AllowedExtensionsReachable). */
  function DefaultImageConfig(folder: string): (c: UploadConfig)
    ensures c.folder == folder && c.maxBytes == MaxFileSize == 2 * 1_048_576
    ensures ".jpg" in c.allowedExts && ".jpeg" in c.allowedExts && ".png" in c.allowedExts && |c.allowedExts| == 3
    ensures "image/jpeg" in c.allowedMime && "image/png" in c.allowedMime && |c.allowedMime| == 2
    ensures forall e :: e in c.allowedExts ==> ExtForm(e)
  {
    ImageExtsInForm();
    UploadConfig(folder, ImageExts, ImageMimes, MaxFileSize)
  }

  /** Every allowed image extension is matched by a file name carrying it. */
  lemma AllowedExtensionsReachable(folder: string, stem: string, e: string)
    requires e in DefaultImageConfig(folder).allowedExts
    ensures ToLower(Ext(stem + e)) == e
  {
    ExtensionLookup(stem, e);
  }

  /** ToLower leaves text without upper-case letters as it is. */
  lemma LowerOfLowerCase(s: string)
    requires LowerCase(s)
    ensures ToLower(s) == s
  {
    assert forall i :: 0 <= i < |s| ==> ToLower(s)[i] == s[i];
  }

  /** A '.' and a lower-case suffix without '.' or '/' is what the lookup
      sees for any name ending in it. */
  lemma ExtensionLookup(stem: string, e: string)
    requires ExtForm(e)
    ensures ToLower(Ext(stem + e)) == e
  {
    ExtOfName(stem, e);
    LowerOfLowerCase(e);
  }

  /** A path whose last k characters are a '.' followed by characters other
      than '.' and '/' has those k characters as its extension. */
  lemma {:induction false} ExtOfSuffix(path: string, k: nat)
    requires 1 <= k <= |path| && path[|path| - k] == '.'
    requires forall i :: |path| - k < i < |path| ==> path[i] != '.' && path[i] != '/'
    ensures Ext(path) == path[|path| - k..]
    decreases k
  {
    if k > 1 {
      var init := path[..|path| - 1];
      ExtOfSuffix(init, k - 1);
      assert init[|init| - (k - 1)..] + [path[|path| - 1]] == path[|path| - k..];
    }
  }

  /** A name ending in '.' and characters other than '.' and '/' has that
      ending as its extension. */
  lemma ExtOfName(stem: string, e: string)
    requires |e| >= 1 && e[0] == '.'
    requires forall i :: 1 <= i < |e| ==> e[i] != '.' && e[i] != '/'
    ensures Ext(stem + e) == e
  {
    var path := stem + e;
    assert path[|path| - |e|..] == e;
    ExtOfSuffix(path, |e|);
  }

  /** The stored file's name: the time in nanoseconds, '_', the folder and the
      lower-cased extension. */
  function UploadName(nowNano: int, folder: string, ext: string): (name: string)
    ensures '/' !in folder && '/' !in ext ==> '/' !in name
    ensures |name| > |folder| + |ext|
  {
    FormatInt(nowNano) + "_" + folder + ext
  }

  /** SaveUploadedFile. The checks run in a fixed order: size (a size equal to
      the limit passes), the lower-cased extension, opening the upload
      (`openFails`), reading its header (`sniffed` is None when that fails,
      otherwise the detected content type), the content type, and writing the
      copy (`writeFails`). The result is the URL path of the stored copy. */
  function SaveUploadedFile(file: FileHeader, config: UploadConfig, openFails: bool, sniffed: Option<string>,
                            nowNano: int, writeFails: bool): (r: UploadResult)
    ensures file.size > config.maxBytes ==> r == Refused(TooLarge)
    ensures file.size <= config.maxBytes && ToLower(Ext(file.filename)) !in config.allowedExts ==>
              r == Refused(BadExtension)
    ensures r.Stored? <==>
              file.size <= config.maxBytes && ToLower(Ext(file.filename)) in config.allowedExts && !openFails &&
              sniffed.Some? && sniffed.value in config.allowedMime && !writeFails
    ensures r.Stored? ==>
              r.path == "/uploads/" + config.folder + "/" + UploadName(nowNano, config.folder, ToLower(Ext(file.filename)))
    ensures r == Refused(HeaderUnreadable) <==>
              file.size <= config.maxBytes && ToLower(Ext(file.filename)) in config.allowedExts && !openFails &&
              sniffed.None?
    ensures r == Refused(MimeMismatch) ==> sniffed.Some? && sniffed.value !in config.allowedMime
  {
    var ext := ToLower(Ext(file.filename));
    if file.size > config.maxBytes then Refused(TooLarge)
    else if ext !in config.allowedExts then Refused(BadExtension)
    else if openFails then Refused(IoFailure)
    else if sniffed.None? then Refused(HeaderUnreadable)
    else if sniffed.value !in config.allowedMime then Refused(MimeMismatch)
    else if writeFails then Refused(IoFailure)
    else Stored("/uploads/" + config.folder + "/" + UploadName(nowNano, config.folder, ext))
  }

  /** An upper-case extension is accepted like its lower-case form. */
  lemma UpperCaseExtensionAccepted(stem: string)
    ensures ToLower(Ext(stem + ".JPG")) == ".jpg" && ".jpg" in DefaultImageConfig(DirAvatar).allowedExts
  {
    var upper := ".JPG";
    assert upper == ['.', 'J', 'P', 'G'];
    ExtOfName(stem, upper);
    LowerJpg();
  }

  lemma LowerJpg()
    ensures ToLower(".JPG") == ".jpg"
  {
    var lowered := ToLower(".JPG");
    assert lowered[1] == 'j' && lowered[2] == 'p' && lowered[3] == 'g';
  }

  /** GetBaseURL: BACKEND_URL when it is set to a non-empty value, otherwise
      the local default. `env` is the variable's value, None when unset. */
  function GetBaseURL(env: Option<string>): (url: string)
    ensures url != ""
    ensures env.Some? && env.value != "" ==> url == env.value
    ensures env.None? || env.value == "" ==> url == "http://localhost:8080"
  {
    if env.Some? && env.value != "" then env.value else "http://localhost:8080"
  }
}

/** The unsigned image upload of services/cloudinary.ts: the credential check, the upload
    URL, the file name and MIME type sent with the file, and how the outcome of the
    request becomes a URL or an error message. The environment variables are a `Config`;
    `fetch` and the JSON body it yields are a `FetchOutcome` parameter. */
module Cloudinary {
  import opened Text

  /** `EXPO_PUBLIC_CLOUDINARY_CLOUD_NAME` and `EXPO_PUBLIC_CLOUDINARY_UPLOAD_PRESET`, each
      possibly unset. */
  datatype Config = Config(cloudName: Option<string>, uploadPreset: Option<string>)

  /** What awaiting `fetch` and `response.json()` produced: a response (its `ok` flag,
      the `error.message` of its body if any, its `secure_url`), or a thrown value, with
      its message when it is an `Error`. */
  datatype FetchOutcome =
    | Responded(ok: bool, errorMessage: Option<string>, secureUrl: string)
    | Threw(message: Option<string>)

  /** The POST the service sends: where, and the form fields. */
  datatype UploadRequest = UploadRequest(url: string, fileName: string, mimeType: string, uploadPreset: string)

  const CredentialsMissing := "Cloudinary credentials missing. Please set EXPO_PUBLIC_CLOUDINARY_CLOUD_NAME and EXPO_PUBLIC_CLOUDINARY_UPLOAD_PRESET in your .env file."
  const FailurePrefix := "Cloudinary upload failed: "
  const UrlHead := "https://api.cloudinary.com/v1_1/"
  const UrlTail := "/image/upload"
  const DefaultFileName := "image.jpg"

  predicate Truthy(v: Option<string>) {
    v.Some? && v.value != ""
  }

  /** `isCloudinaryConfigured`. */
  function IsConfigured(c: Config): (b: bool)
    ensures b <==> Truthy(c.cloudName) && Truthy(c.uploadPreset)
  {
    Truthy(c.cloudName) && Truthy(c.uploadPreset)
  }

  function UploadUrl(cloudName: string): (u: string)
    ensures |u| == |UrlHead| + |cloudName| + |UrlTail|
    ensures u[..|UrlHead|] == UrlHead && u[|u| - |UrlTail|..] == UrlTail
  {
    UrlHead + cloudName + UrlTail
  }

  /** The cloud name can be read back from the upload URL, so distinct clouds get
      distinct endpoints. */
  lemma UploadUrlInjective(a: string, b: string)
    requires UploadUrl(a) == UploadUrl(b)
    ensures a == b
  {
    var u := UploadUrl(a);
    assert a == u[|UrlHead|..|u| - |UrlTail|];
  }

  /** `localUri.split('/').pop() || 'image.jpg'`: the last path segment, or the default
      name when the URI ends in '/' or is empty. */
  function FileName(uri: string): (f: string)
    ensures f != [] && '/' !in f
    ensures f == AfterLast(uri, '/') || (AfterLast(uri, '/') == [] && f == DefaultFileName)
  {
    var last := AfterLast(uri, '/');
    if last == [] then
      DefaultNameHasNoSlash();
      DefaultFileName
    else last
  }

  lemma DefaultNameHasNoSlash()
    ensures DefaultFileName != [] && '/' !in DefaultFileName
  {
    assert DefaultFileName == ['i', 'm', 'a', 'g', 'e', '.', 'j', 'p', 'g'];
  }

  /** `filename.split('.').pop()?.toLowerCase()`; a name without '.' is its own
      extension. */
  function Extension(fileName: string): (e: string)
    ensures |e| <= |fileName|
    ensures e == ToLower(AfterLast(fileName, '.'))
    ensures '.' !in e
  {
    var r := ToLower(AfterLast(fileName, '.'));
    assert forall k :: 0 <= k < |r| ==> r[k] != '.' by {
      var last := AfterLast(fileName, '.');
      forall k | 0 <= k < |r| ensures r[k] != '.' {
        assert last[k] != '.';
      }
    }
    r
  }

  function MimeType(extension: string): (m: string)
    ensures extension == "png" ==> m == "image/png"
    ensures extension == "gif" ==> m == "image/gif"
    ensures extension == "webp" ==> m == "image/webp"
    ensures extension !in {"png", "gif", "webp"} ==> m == "image/jpeg"
  {
    if extension == "png" then "image/png"
    else if extension == "gif" then "image/gif"
    else if extension == "webp" then "image/webp"
    else "image/jpeg"
  }

  /** Every URI gets one of the four image types. */
  lemma MimeTypeIsImage(uri: string)
    ensures MimeType(Extension(FileName(uri))) in {"image/png", "image/gif", "image/webp", "image/jpeg"}
  {
  }

  /** The last path segment of a URI is its file name. */
  lemma FileNameOfPath(dir: string, name: string)
    requires name != [] && '/' !in name
    ensures FileName(dir + "/" + name) == name
  {
    assert dir + "/" + name == dir + ['/'] + name;
    AfterLastAppend(dir, '/', name);
  }

  /** The text after the last dot, lower-cased, is the extension. */
  lemma ExtensionAfterDot(stem: string, ext: string)
    requires '.' !in ext
    ensures Extension(stem + "." + ext) == ToLower(ext)
  {
    assert stem + "." + ext == stem + ['.'] + ext;
    AfterLastAppend(stem, '.', ext);
  }

  lemma LowerPng()
    ensures ToLower("PNG") == "png"
  {
    assert LowerChar('P') == 'p' && LowerChar('N') == 'n' && LowerChar('G') == 'g';
  }

  /** The extension is compared after lower-casing: a file ending in ".PNG" is sent as
      PNG, whatever directory it sits in. */
  lemma UpperCaseExtension(dir: string, stem: string)
    requires '/' !in stem
    ensures MimeType(Extension(FileName(dir + "/" + stem + ".PNG"))) == "image/png"
  {
    var ext := "PNG";
    assert '/' !in ext && '.' !in ext;
    var name := stem + "." + ext;
    assert dir + "/" + stem + ".PNG" == dir + "/" + name;
    FileNameOfPath(dir, name);
    ExtensionAfterDot(stem, ext);
    LowerPng();
    var e := Extension(name);
    assert e == "png";
    assert MimeType(e) == "image/png";
  }

  /** The request `uploadToCloudinary` sends, or None when it throws before sending. */
  function Request(c: Config, localUri: string): (r: Option<UploadRequest>)
    ensures r.None? <==> !IsConfigured(c)
    ensures r.Some? ==> r.value.url == UploadUrl(c.cloudName.value) && r.value.uploadPreset == c.uploadPreset.value
    ensures r.Some? ==> r.value.fileName == FileName(localUri) && r.value.mimeType == MimeType(Extension(FileName(localUri)))
  {
    if !IsConfigured(c) then None
    else
      var name := FileName(localUri);
      Some(UploadRequest(UploadUrl(c.cloudName.value), name, MimeType(Extension(name)), c.uploadPreset.value))
  }

  /** `uploadToCloudinary`: the secure URL, or the message of the error it throws. */
  function Upload(c: Config, localUri: string, outcome: FetchOutcome): (r: Result<string, string>)
    ensures !IsConfigured(c) ==> r == Err(CredentialsMissing)
    ensures IsConfigured(c) && outcome.Responded? && outcome.ok ==> r == Ok(outcome.secureUrl)
    ensures IsConfigured(c) && outcome.Responded? && !outcome.ok ==>
      r == Err(FailurePrefix + (if Truthy(outcome.errorMessage) then outcome.errorMessage.value else "Upload failed"))
    ensures IsConfigured(c) && outcome.Threw? ==>
      r == Err(FailurePrefix + outcome.message.GetOr("Unknown error"))
  {
    if !IsConfigured(c) then Err(CredentialsMissing)
    else match outcome
      case Responded(ok, message, url) =>
        if ok then Ok(url)
        else Err(FailurePrefix + (if Truthy(message) then message.value else "Upload failed"))
      case Threw(message) => Err(FailurePrefix + message.GetOr("Unknown error"))
  }

  /** Once credentials are present, every failure carries the service's prefix; the
      missing-credentials error is thrown before the `try` and does not. */
  lemma UploadErrorPrefix(c: Config, localUri: string, outcome: FetchOutcome)
    requires Upload(c, localUri, outcome).Err?
    ensures var m := Upload(c, localUri, outcome).error;
      && (!IsConfigured(c) ==> m == CredentialsMissing)
      && (IsConfigured(c) ==> |m| >= |FailurePrefix| && m[..|FailurePrefix|] == FailurePrefix)
  {
    var m := Upload(c, localUri, outcome).error;
    if IsConfigured(c) {
      assert m[..|FailurePrefix|] == FailurePrefix;
    }
  }
}

/** `uploadMedia` (lib/supabase-storage.ts): where an answer's media file is
    stored, under which name, and which media kind it is recorded as. The
    storage bucket itself is an oracle: `store(path, file)` answers the error
    message of the upload, or `None` when it succeeded, and `publicUrl(path)`
    is the bucket's public address for a path. */
module Storage {
  import opened Common
  import opened Text

  /** A file picked or recorded in the browser: name, MIME type and size in bytes. */
  datatype MediaFile = MediaFile(name: string, mimeType: string, size: nat)

  /** The `media_type` column of an answer (the generated table type omits
      `audio`, which the code nevertheless writes). */
  datatype MediaType = TextMedia | ImageMedia | VideoMedia | AudioMedia

  /** What a successful upload returns. */
  datatype Uploaded = Uploaded(path: string, url: string, mediaType: MediaType)

  /** The string stored for each media kind. */
  function MediaTypeName(m: MediaType): (r: string)
    ensures r == "text" || r == "image" || r == "video" || r == "audio"
  {
    match m
    case TextMedia => "text"
    case ImageMedia => "image"
    case VideoMedia => "video"
    case AudioMedia => "audio"
  }

  /** Different media kinds are stored as different strings. */
  lemma MediaTypeNameInjective(m: MediaType, n: MediaType)
    requires MediaTypeName(m) == MediaTypeName(n)
    ensures m == n
  {
  }

  /** `name.split(".").pop()`: the text after the last dot, the whole name when
      there is no dot, and the empty string when the name ends in a dot. */
  function FileExtension(name: string): (ext: string)
    ensures |ext| <= |name| && ext == name[|name| - |ext|..]
    ensures '.' !in ext
    ensures '.' in name ==> |ext| < |name| && name[|name| - |ext| - 1] == '.'
    ensures '.' !in name ==> ext == name
  {
    if name == [] then []
    else if name[|name| - 1] == '.' then []
    else
      var init := name[..|name| - 1];
      assert name == init + [name[|name| - 1]];
      FileExtension(init) + [name[|name| - 1]]
  }

  /** A name is what precedes its last dot, the dot, and its extension. */
  lemma {:induction false} FileExtensionSplits(name: string)
    requires '.' in name
    ensures name == name[..|name| - |FileExtension(name)| - 1] + "." + FileExtension(name)
  {
    var ext := FileExtension(name);
    var k := |name| - |ext| - 1;
    assert name == name[..k] + [name[k]] + name[k + 1..];
  }

  /** `${uuid}.${fileExt}`: the stored object's name. */
  function FileName(uuid: string, name: string): string {
    uuid + "." + FileExtension(name)
  }

  /** `${userId}/${fileName}`: the stored object's path, inside the user's folder. */
  function FilePath(userId: string, fileName: string): string {
    userId + "/" + fileName
  }

  /** The if / else-if chain on the MIME type: the first prefix that matches
      decides, and a type with none of the three prefixes is `text`. */
  function ClassifyMime(mimeType: string): (m: MediaType)
    ensures m == ImageMedia <==> StartsWith(mimeType, "image/")
    ensures m == VideoMedia <==> !StartsWith(mimeType, "image/") && StartsWith(mimeType, "video/")
    ensures m == AudioMedia <==> !StartsWith(mimeType, "image/") && !StartsWith(mimeType, "video/")
                                 && StartsWith(mimeType, "audio/")
    ensures m == TextMedia <==> !StartsWith(mimeType, "image/") && !StartsWith(mimeType, "video/")
                                && !StartsWith(mimeType, "audio/")
  {
    if StartsWith(mimeType, "image/") then ImageMedia
    else if StartsWith(mimeType, "video/") then VideoMedia
    else if StartsWith(mimeType, "audio/") then AudioMedia
    else TextMedia
  }

  /** No MIME type starts with two of the three prefixes, so the order of the
      tests in the chain does not change the classification. */
  lemma PrefixesExclusive(mimeType: string)
    ensures !(StartsWith(mimeType, "image/") && StartsWith(mimeType, "video/"))
    ensures !(StartsWith(mimeType, "image/") && StartsWith(mimeType, "audio/"))
    ensures !(StartsWith(mimeType, "video/") && StartsWith(mimeType, "audio/"))
  {
    if StartsWith(mimeType, "image/") {
      assert mimeType[0] == 'i';
    }
    if StartsWith(mimeType, "video/") {
      assert mimeType[0] == 'v';
    }
  }

  /** `uploadMedia(file, userId)` with the generated `uuid` as a parameter. */
  function UploadMedia(file: MediaFile, userId: string, uuid: string,
                       store: (string, MediaFile) -> Option<string>,
                       publicUrl: string -> string): (r: Result<Uploaded>)
    // an upload error is thrown with a fixed prefix, and nothing is returned
    ensures var sent := FilePath(userId, FileName(uuid, file.name));
      (r.Err? <==> store(sent, file).Some?) &&
      (r.Err? ==> r.error == UploadErrorPrefix + store(sent, file).value) &&
      (r.Ok? ==> r.value.path == sent)
    // the path returned is the path the file was uploaded to, inside the user's folder
    ensures r.Ok? ==> store(r.value.path, file).None? && StartsWith(r.value.path, userId + "/")
    ensures r.Ok? ==> r.value.url == publicUrl(r.value.path)
    ensures r.Ok? ==> r.value.mediaType == ClassifyMime(file.mimeType)
  {
    var filePath := FilePath(userId, FileName(uuid, file.name));
    var outcome := store(filePath, file);
    if outcome.Some? then Err(UploadErrorPrefix + outcome.value)
    else
      PathInUserFolder(userId, FileName(uuid, file.name));
      Ok(Uploaded(filePath, publicUrl(filePath), ClassifyMime(file.mimeType)))
  }

  const UploadErrorPrefix := "Error uploading file: "

  /** Every stored path starts with the owner's folder. */
  lemma PathInUserFolder(userId: string, fileName: string)
    ensures StartsWith(FilePath(userId, fileName), userId + "/")
  {
    assert (userId + "/" + fileName)[..|userId + "/"|] == userId + "/";
  }
}

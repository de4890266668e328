/**
 * CloudinaryServiceImpl: recovering a public id from an image URL, the
 * content-type whitelist, the size limit, and the null guards in front of
 * the URL builders. The Cloudinary client itself is outside the model: a
 * URL builder is modelled by the request it hands to the client.
 */
module Cloudinary {
  import opened Base

  const Separator: char := '/'
  const ExtensionDot: char := '.'
  const MaxFileSizeBytes: int := 5242880
  const AutoFormat := "auto"
  const FillCrop := "fill"

  // ---------------------------------------------------------------------------
  // String.split("/")
  // ---------------------------------------------------------------------------

  /** Every piece between separators, empty ones included. */
  function RawSplit(s: string, c: char): (pieces: seq<string>)
    ensures |pieces| >= 1
    ensures forall k :: 0 <= k < |pieces| ==> c !in pieces[k]
    decreases |s|
  {
    match IndexOf(s, c)
    case None => [s]
    case Some(i) => [s[..i]] + RawSplit(s[i + 1..], c)
  }

  /** The pieces joined back with the separator. */
  function Join(pieces: seq<string>, c: char): string
    requires |pieces| >= 1
    decreases |pieces|
  {
    if |pieces| == 1 then pieces[0] else pieces[0] + [c] + Join(pieces[1..], c)
  }

  /** Joining the pieces restores the text. */
  lemma {:induction false} SplitJoin(s: string, c: char)
    ensures Join(RawSplit(s, c), c) == s
    decreases |s|
  {
    match IndexOf(s, c)
    case None =>
    case Some(i) =>
      var rest := RawSplit(s[i + 1..], c);
      assert RawSplit(s, c) == [s[..i]] + rest;
      SplitJoin(s[i + 1..], c);
      assert ([s[..i]] + rest)[1..] == rest;
      assert Join([s[..i]] + rest, c) == s[..i] + [c] + Join(rest, c);
      assert s == s[..i] + [c] + s[i + 1..];
  }

  /** The first occurrence is the position before which c does not occur. */
  lemma FirstOccurrence(s: string, c: char, j: nat)
    requires j < |s| && s[j] == c && c !in s[..j]
    ensures IndexOf(s, c) == Some(j)
  {
    var k := IndexOf(s, c).value;
  }

  /** Splitting around one separator splits each side on its own. */
  lemma RawSplitAppend(a: string, c: char, b: string)
    requires c !in a
    ensures RawSplit(a + [c] + b, c) == [a] + RawSplit(b, c)
  {
    var s := a + [c] + b;
    assert s[..|a|] == a && s[|a| + 1..] == b;
    FirstOccurrence(s, c, |a|);
  }

  /** Three separator-free pieces come back out of their join. */
  lemma RawSplitThree(x: string, y: string, z: string, c: char)
    requires c !in x && c !in y && c !in z
    ensures RawSplit(x + [c] + y + [c] + z, c) == [x, y, z]
  {
    assert x + [c] + y + [c] + z == x + [c] + (y + [c] + z);
    RawSplitAppend(y, c, z);
    RawSplitAppend(x, c, y + [c] + z);
  }

  /** Trailing empty strings removed, as split does with no limit. */
  function DropTrailingEmpty(pieces: seq<string>): (r: seq<string>)
    ensures |r| <= |pieces| && r == pieces[..|r|]
    ensures |r| == 0 || r[|r| - 1] != ""
    ensures forall k :: |r| <= k < |pieces| ==> pieces[k] == ""
    decreases |pieces|
  {
    if |pieces| > 0 && pieces[|pieces| - 1] == "" then DropTrailingEmpty(pieces[..|pieces| - 1]) else pieces
  }

  /** String.split with a one-character pattern: without a match the text
      itself is the only piece; otherwise the pieces without trailing empty
      strings. */
  function JavaSplit(s: string, c: char): (pieces: seq<string>)
    ensures c !in s ==> pieces == [s]
    ensures c in s ==> pieces == DropTrailingEmpty(RawSplit(s, c))
  {
    if c in s then DropTrailingEmpty(RawSplit(s, c)) else [s]
  }

  // ---------------------------------------------------------------------------
  // extractPublicIdFromUrl
  // ---------------------------------------------------------------------------

  /** The last segment up to its last '.', or whole when it has none. */
  function StripExtension(segment: string): (name: string)
    ensures |name| <= |segment| && name == segment[..|name|]
    ensures ExtensionDot !in segment ==> name == segment
    ensures ExtensionDot in segment ==>
              |name| < |segment| && segment[|name|] == ExtensionDot && ExtensionDot !in segment[|name| + 1..]
  {
    match LastIndexOf(segment, ExtensionDot)
    case None => segment
    case Some(i) => segment[..i]
  }

  predicate Blank(s: string)
  {
    Trim(s) == ""
  }

  /** A public id the service accepts: present and not blank. */
  predicate Usable(publicId: Option<string>)
  {
    publicId.Some? && !Blank(publicId.value)
  }

  /** extractPublicIdFromUrl: null or blank gives null; otherwise the last
      two '/'-separated segments, the last one without its extension. */
  function ExtractPublicIdFromUrl(imageUrl: Option<string>): (r: Option<string>)
    ensures imageUrl.None? ==> r.None?
    ensures imageUrl.Some? && Blank(imageUrl.value) ==> r.None?
    ensures r.Some? <==>
              imageUrl.Some? && !Blank(imageUrl.value) && |JavaSplit(imageUrl.value, Separator)| >= 2
    ensures r.Some? ==>
              (var parts := JavaSplit(imageUrl.value, Separator);
               r.value == parts[|parts| - 2] + [Separator] + StripExtension(parts[|parts| - 1]))
  {
    if imageUrl.None? || Blank(imageUrl.value) then None
    else
      var parts := JavaSplit(imageUrl.value, Separator);
      if |parts| < 2 then None
      else Some(parts[|parts| - 2] + [Separator] + StripExtension(parts[|parts| - 1]))
  }

  /** A URL without any '/' has one segment and gives null. */
  lemma NoSeparatorGivesNull(url: string)
    requires Separator !in url
    ensures ExtractPublicIdFromUrl(Some(url)).None?
  {
  }

  /** Text holding a '/' is never blank. */
  lemma SeparatorIsNotBlank(s: string, j: nat)
    requires j < |s| && s[j] == Separator
    ensures !Blank(s)
  {
    assert !TrimmedAway(s[j]);
  }

  /** Only the extension after the last '.' is dropped. */
  lemma StripLastExtension(name: string, ext: string)
    requires ExtensionDot !in ext
    ensures StripExtension(name + [ExtensionDot] + ext) == name
  {
    var last := name + [ExtensionDot] + ext;
    assert last[|name|] == ExtensionDot && last[|name| + 1..] == ext;
    var k := LastIndexOf(last, ExtensionDot).value;
  }

  /** Three separator-free pieces, the last non-empty, are what split returns. */
  lemma JavaSplitThree(x: string, y: string, z: string, c: char)
    requires c !in x && c !in y && c !in z && z != ""
    ensures JavaSplit(x + [c] + y + [c] + z, c) == [x, y, z]
  {
    var s := x + [c] + y + [c] + z;
    assert s[|x|] == c;
    RawSplitThree(x, y, z, c);
    assert DropTrailingEmpty([x, y, z]) == [x, y, z];
  }

  /** Once split, the public id is read off the last two segments. */
  lemma PublicIdOfSegments(url: string, parts: seq<string>)
    requires JavaSplit(url, Separator) == parts && |parts| >= 2
    ensures ExtractPublicIdFromUrl(Some(url))
      == Some(parts[|parts| - 2] + [Separator] + StripExtension(parts[|parts| - 1]))
  {
    assert Separator in url;
    var j :| 0 <= j < |url| && url[j] == Separator;
    SeparatorIsNotBlank(url, j);
  }

  /** For a URL ending in folder/name.ext, with the extension free of '.',
      the public id is folder/name, whatever precedes the folder. */
  lemma PublicIdOfUploadUrl(head: string, folder: string, name: string, ext: string)
    requires Separator !in head && Separator !in folder && Separator !in name && Separator !in ext
    requires ExtensionDot !in ext
    ensures ExtractPublicIdFromUrl(Some(head + [Separator] + folder + [Separator] + name + [ExtensionDot] + ext))
      == Some(folder + [Separator] + name)
  {
    var last := name + [ExtensionDot] + ext;
    assert head + [Separator] + folder + [Separator] + name + [ExtensionDot] + ext
        == head + [Separator] + folder + [Separator] + last;
    assert Separator !in last by {
      assert forall k :: 0 <= k < |last| ==> last[k] == (if k < |name| then name[k] else if k == |name| then ExtensionDot else ext[k - |name| - 1]);
    }
    JavaSplitThree(head, folder, last, Separator);
    PublicIdOfSegments(head + [Separator] + folder + [Separator] + last, [head, folder, last]);
    StripLastExtension(name, ext);
  }

  /** Two separator-free pieces, the last non-empty, are what split returns. */
  lemma JavaSplitTwo(x: string, y: string, c: char)
    requires c !in x && c !in y && y != ""
    ensures JavaSplit(x + [c] + y, c) == [x, y]
  {
    assert (x + [c] + y)[|x|] == c;
    RawSplitAppend(x, c, y);
    assert DropTrailingEmpty([x, y]) == [x, y];
  }

  /** A trailing separator adds only an empty piece, which split drops. */
  lemma JavaSplitTrailing(x: string, y: string, c: char)
    requires c !in x && c !in y && y != ""
    ensures JavaSplit(x + [c] + y + [c], c) == [x, y]
  {
    var s := x + [c] + y + [c];
    assert s == x + [c] + y + [c] + "";
    assert s[|x|] == c;
    assert IndexOf("", c).None?;
    RawSplitThree(x, y, "", c);
    assert DropTrailingEmpty([x, y, ""]) == [x, y];
  }

  /** A trailing '/' does not change the public id. */
  lemma TrailingSeparatorIgnored(folder: string, last: string)
    requires Separator !in folder && Separator !in last && last != ""
    ensures ExtractPublicIdFromUrl(Some(folder + [Separator] + last + [Separator]))
      == ExtractPublicIdFromUrl(Some(folder + [Separator] + last))
  {
    JavaSplitTrailing(folder, last, Separator);
    PublicIdOfSegments(folder + [Separator] + last + [Separator], [folder, last]);
    JavaSplitTwo(folder, last, Separator);
    PublicIdOfSegments(folder + [Separator] + last, [folder, last]);
  }

  // ---------------------------------------------------------------------------
  // isValidImageFormat and getMaxFileSize
  // ---------------------------------------------------------------------------

  /** The upload as the check sees it: its size and declared content type. */
  datatype Upload = Upload(size: nat, contentType: Option<string>)

  const AllowedContentTypes: set<string> := {"image/jpeg", "image/jpg", "image/png", "image/gif", "image/webp"}

  /** isValidImageFormat: a present, non-empty file whose content type is
      exactly one of the five image types. */
  function IsValidImageFormat(file: Option<Upload>): (valid: bool)
    ensures valid <==>
              (file.Some? && file.value.size > 0 && file.value.contentType.Some?
               && file.value.contentType.value in AllowedContentTypes)
  {
    match file
    case None => false
    case Some(f) =>
      if f.size == 0 then false
      else match f.contentType
        case None => false
        case Some(t) =>
          t == "image/jpeg" || t == "image/jpg" || t == "image/png" || t == "image/gif" || t == "image/webp"
  }

  /** The comparison is exact: an accepted file is non-empty and its content
      type holds no upper-case letter, so "IMAGE/PNG" is refused. */
  lemma ContentTypeIsCaseSensitive(size: nat, contentType: string)
    ensures IsValidImageFormat(Some(Upload(size, Some(contentType)))) ==>
      size > 0 && forall i :: 0 <= i < |contentType| ==> !('A' <= contentType[i] <= 'Z')
    ensures !IsValidImageFormat(Some(Upload(1, Some("IMAGE/PNG"))))
    ensures IsValidImageFormat(Some(Upload(1, Some("image/png"))))
    ensures !IsValidImageFormat(Some(Upload(0, Some("image/png"))))
  {
  }

  /** getMaxFileSize: five mebibytes. */
  function MaxFileSize(): (bytes: int)
    ensures bytes == 5 * 1024 * 1024 && bytes == MaxFileSizeBytes
  {
    5 * 1024 * 1024
  }

  // ---------------------------------------------------------------------------
  // uploadImage, deleteImage and updateImage
  // ---------------------------------------------------------------------------

  const EmptyFileMessage := "File cannot be empty"
  const EmptyPublicIdMessage := "Public ID cannot be null or empty"

  /** A call made on the Cloudinary uploader. */
  datatype ImageCall = UploadCall(folder: Option<string>) | DestroyCall(publicId: string)

  /** The calls an operation made, in order, and the IllegalArgumentException
      message it ended with, if any. */
  datatype ImageOutcome = ImageOutcome(calls: seq<ImageCall>, rejected: Option<string>)

  /** uploadImage: an empty file is refused before anything is sent. */
  function UploadImage(file: Upload, folder: Option<string>): (r: ImageOutcome)
    ensures r.rejected.Some? <==> file.size == 0
    ensures r.rejected.Some? ==> r.calls == [] && r.rejected.value == EmptyFileMessage
    ensures r.rejected.None? ==> r.calls == [UploadCall(folder)]
  {
    if file.size == 0 then ImageOutcome([], Some(EmptyFileMessage))
    else ImageOutcome([UploadCall(folder)], None)
  }

  /** deleteImage: a null or blank public id is refused before anything is sent. */
  function DeleteImage(publicId: Option<string>): (r: ImageOutcome)
    ensures r.rejected.Some? <==> !Usable(publicId)
    ensures r.rejected.Some? ==> r.calls == [] && r.rejected.value == EmptyPublicIdMessage
    ensures r.rejected.None? ==> r.calls == [DestroyCall(publicId.value)]
  {
    if Usable(publicId) then ImageOutcome([DestroyCall(publicId.value)], None)
    else ImageOutcome([], Some(EmptyPublicIdMessage))
  }

  /** updateImage: the old image, when named, is destroyed first; then the
      new file is uploaded. */
  function UpdateImage(file: Upload, oldPublicId: Option<string>, folder: Option<string>): (r: ImageOutcome)
    ensures r.rejected == UploadImage(file, folder).rejected
    ensures Usable(oldPublicId) ==> r.calls == [DestroyCall(oldPublicId.value)] + UploadImage(file, folder).calls
    ensures !Usable(oldPublicId) ==> r.calls == UploadImage(file, folder).calls
  {
    var upload := UploadImage(file, folder);
    if Usable(oldPublicId) then
      var delete := DeleteImage(oldPublicId);
      ImageOutcome(delete.calls + upload.calls, upload.rejected)
    else upload
  }

  /** An update with an empty file is refused, but only after the old image
      has been destroyed. */
  lemma EmptyUpdateStillDestroys(file: Upload, oldPublicId: string, folder: Option<string>)
    requires file.size == 0 && !Blank(oldPublicId)
    ensures UpdateImage(file, Some(oldPublicId), folder) == ImageOutcome([DestroyCall(oldPublicId)], Some(EmptyFileMessage))
  {
  }

  // ---------------------------------------------------------------------------
  // The URL builders
  // ---------------------------------------------------------------------------

  /** What a builder asks the client to generate: the public id and the
      transformation, if any. */
  datatype Transformation = Transformation(width: int, height: int, crop: string, quality: string, fetchFormat: string)
  datatype UrlRequest = UrlRequest(publicId: string, transformation: Option<Transformation>)

  /** getImageUrl. */
  function GetImageUrl(publicId: Option<string>): (r: Option<UrlRequest>)
    ensures r.Some? <==> Usable(publicId)
    ensures r.Some? ==> r.value == UrlRequest(publicId.value, None)
  {
    if Usable(publicId) then Some(UrlRequest(publicId.value, None)) else None
  }

  /** getOptimizedImageUrl. */
  function GetOptimizedImageUrl(publicId: Option<string>, width: int, height: int): (r: Option<UrlRequest>)
    ensures r.Some? <==> Usable(publicId)
    ensures r.Some? ==>
              r.value.publicId == publicId.value && r.value.transformation.Some?
              && r.value.transformation.value.width == width && r.value.transformation.value.height == height
              && r.value.transformation.value.crop == FillCrop && r.value.transformation.value.quality == AutoFormat
              && r.value.transformation.value.fetchFormat == AutoFormat
  {
    if Usable(publicId) then
      Some(UrlRequest(publicId.value, Some(Transformation(width, height, FillCrop, AutoFormat, AutoFormat))))
    else None
  }

  /** generateOptimizedUrl: a null format becomes "auto". */
  function GenerateOptimizedUrl(publicId: Option<string>, width: int, height: int, format: Option<string>)
    : (r: Option<UrlRequest>)
    ensures r.Some? <==> Usable(publicId)
    ensures r.Some? ==>
              r.value.publicId == publicId.value && r.value.transformation.Some?
              && r.value.transformation.value.width == width && r.value.transformation.value.height == height
              && r.value.transformation.value.crop == FillCrop && r.value.transformation.value.quality == AutoFormat
              && r.value.transformation.value.fetchFormat == (if format.Some? then format.value else AutoFormat)
  {
    if Usable(publicId) then
      Some(UrlRequest(publicId.value, Some(Transformation(width, height, FillCrop, AutoFormat,
                                                          if format.Some? then format.value else AutoFormat))))
    else None
  }

  /** Without a format, generateOptimizedUrl asks for what getOptimizedImageUrl asks for. */
  lemma DefaultFormatMatchesOptimized(publicId: Option<string>, width: int, height: int)
    ensures GenerateOptimizedUrl(publicId, width, height, None) == GetOptimizedImageUrl(publicId, width, height)
  {
  }
}

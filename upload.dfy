/**
  The checks a chosen file passes before the page reads it and sends it off for
  analysis: nothing chosen does nothing, then the declared type must be an image
  type, then the size must be within 20 MiB.
 */
module Upload {
  import opened Wrappers
  import opened JsString

  /** What the page reads of a chosen file: its declared MIME type and its size in bytes. */
  datatype SelectedFile = SelectedFile(mimeType: String, size: nat)

  /** 20 MiB, the largest accepted size. */
  const MaxImageBytes: nat := 20 * 1024 * 1024

  const ImagePrefix: String := "image/"
  const InvalidTypeMessage: String := "Please upload a valid image file"
  const TooLargeMessage: String := "Image size should be less than 20MB"

  /** What the upload handler does with a selection. */
  datatype Outcome =
    | NoFile                      // nothing chosen: the handler returns and changes nothing
    | Rejected(message: String)   // the error shown, and the file is not read
    | Accepted(file: SelectedFile) // the file is read and analysed

  /** The type check comes first and the size check second; a file passing both is accepted. */
  function CheckUpload(choice: Option<SelectedFile>): (r: Outcome)
    ensures r.NoFile? <==> choice.None?
    ensures r == Rejected(InvalidTypeMessage) <==>
      choice.Some? && !StartsWith(choice.value.mimeType, ImagePrefix)
    ensures r == Rejected(TooLargeMessage) <==>
      choice.Some? && StartsWith(choice.value.mimeType, ImagePrefix) && choice.value.size > MaxImageBytes
    ensures r.Accepted? <==>
      choice.Some? && StartsWith(choice.value.mimeType, ImagePrefix) && choice.value.size <= MaxImageBytes
    ensures r.Accepted? ==> r.file == choice.value
  {
    match choice
    case None => NoFile
    case Some(file) =>
      if !StartsWith(file.mimeType, ImagePrefix) then Rejected(InvalidTypeMessage)
      else if file.size > MaxImageBytes then Rejected(TooLargeMessage)
      else Accepted(file)
  }

  /** A file that is not an image is refused for its type, however large it is. */
  lemma TypeCheckedBeforeSize(mimeType: String, size: nat, other: nat)
    requires !StartsWith(mimeType, ImagePrefix)
    ensures CheckUpload(Some(SelectedFile(mimeType, size))) == CheckUpload(Some(SelectedFile(mimeType, other)))
    ensures CheckUpload(Some(SelectedFile(mimeType, size))) == Rejected(InvalidTypeMessage)
  {
  }

  /** The size bound is inclusive: an image of exactly 20 MiB (20971520 bytes) is accepted
      and one byte more is refused for its size. */
  lemma SizeBoundInclusive(mimeType: String)
    requires StartsWith(mimeType, ImagePrefix)
    ensures MaxImageBytes == 20971520
    ensures CheckUpload(Some(SelectedFile(mimeType, MaxImageBytes))).Accepted?
    ensures CheckUpload(Some(SelectedFile(mimeType, MaxImageBytes + 1))) == Rejected(TooLargeMessage)
  {
  }

  /** Accepting is monotone in size: a smaller file of an accepted type is accepted too. */
  lemma SmallerAccepted(file: SelectedFile, size: nat)
    requires CheckUpload(Some(file)).Accepted? && size <= file.size
    ensures CheckUpload(Some(SelectedFile(file.mimeType, size))) == Accepted(SelectedFile(file.mimeType, size))
  {
  }

  /** Any subtype of `image/` passes the type check, and the check is case-sensitive. */
  lemma ImageTypes()
    ensures CheckUpload(Some(SelectedFile("image/png", 0))).Accepted?
    ensures CheckUpload(Some(SelectedFile("image/heic", 0))).Accepted?
    ensures CheckUpload(Some(SelectedFile("Image/png", 0))) == Rejected(InvalidTypeMessage)
    ensures CheckUpload(Some(SelectedFile("", 0))) == Rejected(InvalidTypeMessage)
  {
    StartsWithChars("image/png", "imag");
  }
}

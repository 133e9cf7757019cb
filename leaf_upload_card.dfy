/** The `onFiles` handler of the leaf upload card: it inspects the first file of a
    selection and hands an object URL for it to the `onImageChange` callback only
    when the file passes the image filter. */
module LeafUploadCard {
  import opened Wire
  import opened ImageType

  /** The calls `onFiles` makes to `onImageChange`, in order. `files` is the
      `FileList`, `None` standing for `null`; `objectUrl` is what
      `URL.createObjectURL` returns for the first file. */
  function OnFiles(files: Option<seq<FileInfo>>, objectUrl: string): (calls: seq<string>)
    ensures |calls| <= 1
    ensures forall i | 0 <= i < |calls| :: calls[i] == objectUrl
    ensures |calls| == 1 <==>
      && files.Some? && |files.value| > 0
      && FoldAll(files.value[0].mimeType) in AcceptedTypes
      && |files.value[0].content| <= MaxUploadBytes
  {
    PatternAdmitsExactlyAcceptedTypes(if files.Some? && |files.value| > 0 then files.value[0].mimeType else "");
    if files.None? || |files.value| == 0 then []
    else
      var f := files.value[0];
      if !MatchesImagePattern(f.mimeType) || |f.content| > MaxUploadBytes then []
      else [objectUrl]
  }

  /** A `null` or empty file list never reaches the callback. */
  lemma NoCallWithoutFiles(objectUrl: string)
    ensures OnFiles(None, objectUrl) == []
    ensures OnFiles(Some([]), objectUrl) == []
  {
  }

  /** Only the first file is inspected: whatever follows it makes no difference. */
  lemma OnlyFirstFileInspected(f: FileInfo, more: seq<FileInfo>, objectUrl: string)
    ensures OnFiles(Some([f] + more), objectUrl) == OnFiles(Some([f]), objectUrl)
  {
  }

  /** An invalid first file (a type outside png/jpg/jpeg, or more than 10 MiB)
      produces no call, so the image the card shows is left as it was. */
  lemma InvalidFileIgnored(f: FileInfo, more: seq<FileInfo>, objectUrl: string)
    requires FoldAll(f.mimeType) !in AcceptedTypes || |f.content| > MaxUploadBytes
    ensures OnFiles(Some([f] + more), objectUrl) == []
  {
  }

  /** A valid first file produces exactly one call, carrying the object URL. */
  lemma ValidFileCallsOnce(f: FileInfo, more: seq<FileInfo>, objectUrl: string)
    requires MatchesImagePattern(f.mimeType) && |f.content| <= MaxUploadBytes
    ensures OnFiles(Some([f] + more), objectUrl) == [objectUrl]
  {
  }
}

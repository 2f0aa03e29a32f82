/** Attachments on a comment draft: the image check applied to selected files
    and the message shown when the microphone cannot be opened. */
module Media {
  import opened Types
  import opened Text

  /** What a handler reads of a selected file: its name, its declared MIME
      type and its size in bytes. */
  datatype File = File(name: string, mimeType: string, size: int)

  /** Size ceiling for one attached image: 10 MiB. */
  const MaxImageBytes: int := 10 * 1024 * 1024

  predicate IsImageType(f: File) {
    "image/" <= f.mimeType
  }

  /** `file.type.startsWith('image/')` and `file.size <= 10 * 1024 * 1024`. */
  predicate IsValidImage(f: File) {
    IsImageType(f) && f.size <= MaxImageBytes
  }

  /** Spelled out: a MIME type beginning with the six characters `image/`
      and at most ten mebibytes. */
  lemma IsValidImageMeans(f: File)
    ensures IsValidImage(f) <==> |f.mimeType| >= 6 && f.mimeType[..6] == "image/" && f.size <= 10485760
  {
  }

  /** Why a file is refused; the type is checked before the size, so a file
      that is both of the wrong type and too large is refused for its type. */
  datatype Rejection = InvalidFormat | TooLarge

  function ImageRejection(f: File): (r: Rejection)
    requires !IsValidImage(f)
    ensures r == InvalidFormat <==> !IsImageType(f)
    ensures r == TooLarge <==> IsImageType(f) && f.size > MaxImageBytes
  {
    if !IsImageType(f) then InvalidFormat else TooLarge
  }

  /** The files that pass the image check, in the order they were selected. */
  function ValidImages(files: seq<File>): (r: seq<File>)
    ensures |r| <= |files|
    ensures forall f :: f in r ==> f in files && IsValidImage(f)
    ensures forall f :: f in files && IsValidImage(f) ==> f in r
  {
    if files == [] then []
    else
      var rest := ValidImages(files[1..]);
      assert files == [files[0]] + files[1..];
      if IsValidImage(files[0]) then [files[0]] + rest else rest
  }

  /** The filter works file by file: on a concatenation of batches it is the
      concatenation of the filtered batches, so relative order is kept. */
  lemma {:induction false} ValidImagesAppend(a: seq<File>, b: seq<File>)
    ensures ValidImages(a + b) == ValidImages(a) + ValidImages(b)
  {
    if a == [] {
      assert a + b == b;
    } else {
      assert (a + b)[0] == a[0];
      assert (a + b)[1..] == a[1..] + b;
      ValidImagesAppend(a[1..], b);
    }
  }

  /** A batch of valid images passes unchanged; a batch with no valid image
      yields nothing. */
  lemma {:induction false} ValidImagesAllOrNone(files: seq<File>)
    ensures (forall k :: 0 <= k < |files| ==> IsValidImage(files[k])) ==> ValidImages(files) == files
    ensures (forall k :: 0 <= k < |files| ==> !IsValidImage(files[k])) <==> ValidImages(files) == []
  {
    if files != [] {
      ValidImagesAllOrNone(files[1..]);
      assert forall k :: 1 <= k < |files| ==> files[1..][k - 1] == files[k];
    }
  }

  /** One display reference per file, in order (`files.map(URL.createObjectURL)`),
      with the browser's reference producer passed in. */
  function ObjectUrls(files: seq<File>, objectUrl: File -> string): (r: seq<string>)
    ensures |r| == |files|
    ensures forall k :: 0 <= k < |files| ==> r[k] == objectUrl(files[k])
  {
    seq(|files|, k requires 0 <= k < |files| => objectUrl(files[k]))
  }

  /** The gate on posting a comment: `text.trim() || images.length > 0 || audio`. */
  predicate HasContent(text: string, images: seq<File>, audio: Option<string>): (b: bool)
    ensures b <==> !AllSpace(text) || |images| > 0 || HasRef(audio)
  {
    TrimEmptyIff(text);
    Trim(text) != "" || |images| > 0 || HasRef(audio)
  }

  const MicGenericMessage: string := "無法訪問麥克風。"
  const MicNotAllowedMessage: string := "請允許訪問麥克風權限，然後重試。"
  const MicNotFoundMessage: string := "未找到麥克風設備。"
  const MicNotSupportedMessage: string := "您的設備不支持語音錄製。"
  const MicNotReadableMessage: string := "麥克風被其他應用程式佔用。"
  const MicAbortMessage: string := "錄製被中斷，請重試。"

  /** The message shown when opening the microphone fails with the error
      named `name`: five known names, everything else generic. */
  function MicErrorMessage(name: string): (msg: string)
    ensures name == "NotAllowedError" ==> msg == MicNotAllowedMessage
    ensures name == "NotFoundError" ==> msg == MicNotFoundMessage
    ensures name == "NotSupportedError" ==> msg == MicNotSupportedMessage
    ensures name == "NotReadableError" ==> msg == MicNotReadableMessage
    ensures name == "AbortError" ==> msg == MicAbortMessage
    ensures msg == MicGenericMessage <==>
      name !in ["NotAllowedError", "NotFoundError", "NotSupportedError", "NotReadableError", "AbortError"]
  {
    if name == "NotAllowedError" then MicNotAllowedMessage
    else if name == "NotFoundError" then MicNotFoundMessage
    else if name == "NotSupportedError" then MicNotSupportedMessage
    else if name == "NotReadableError" then MicNotReadableMessage
    else if name == "AbortError" then MicAbortMessage
    else MicGenericMessage
  }

  /** The six messages differ from each other, so each known failure reads
      differently from the others and from the generic one. */
  lemma MicMessagesDistinct()
    ensures |{MicGenericMessage, MicNotAllowedMessage, MicNotFoundMessage,
              MicNotSupportedMessage, MicNotReadableMessage, MicAbortMessage}| == 6
  {
  }
}

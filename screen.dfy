/** What the screens share: their reactions, form verdicts and image choice. */
module Screen {
  import opened Base
  import opened InventoryModel

  /** What a screen does in response to a button or to a new `authState`. */
  datatype Reaction = NoReaction | NavigateTo(route: string) | ShowToast(message: string)

  /** A form's verdict: the first failing check's message, or the parsed quantity and price. */
  datatype FormCheck = Rejected(message: string) | Accepted(quantity: Int32, price: Price)

  /**
   * How uploading an image and then asking for its download URL ends:
   * both succeed; storing the bytes fails and nothing is stored; or the
   * bytes are stored, as the blob `stored`, and asking for the URL fails.
   * A failure carries its exception's message, which may be null.
   */
  datatype UploadOutcome =
    | Uploaded(url: string)
    | UploadFailed(message: Option<string>)
    | UrlFailed(stored: string, message: Option<string>)

  /** The blob an upload leaves in storage, whether or not it then succeeds. */
  function StoredBlob(upload: UploadOutcome): (r: Option<string>)
    ensures r.None? <==> upload.UploadFailed?
    ensures upload.Uploaded? ==> r == Some(upload.url)
    ensures upload.UrlFailed? ==> r == Some(upload.stored)
  {
    match upload
    case Uploaded(url) => Some(url)
    case UploadFailed(_) => None
    case UrlFailed(stored, _) => Some(stored)
  }

  /** The image a submit uploads (`selected ?: captured`): a gallery pick wins over a capture. */
  function UploadSource(selected: Option<string>, captured: Option<string>): (r: Option<string>)
    ensures r.Some? <==> selected.Some? || captured.Some?
    ensures selected.Some? ==> r == selected
    ensures selected.None? ==> r == captured
  {
    if selected.Some? then selected else captured
  }

  /** The image a form previews: a capture wins over a gallery pick. */
  function PreviewSource(selected: Option<string>, captured: Option<string>): (r: Option<string>)
    ensures r.Some? <==> selected.Some? || captured.Some?
    ensures captured.Some? ==> r == captured
    ensures captured.None? ==> r == selected
  {
    if captured.Some? then captured else selected
  }

  /**
   * With both a gallery pick and a capture pending, the form previews one
   * image and uploads the other.
   */
  lemma PreviewCanDifferFromUpload(selected: string, captured: string)
    requires selected != captured
    ensures PreviewSource(Some(selected), Some(captured)) == Some(captured)
    ensures UploadSource(Some(selected), Some(captured)) == Some(selected)
  {
  }

  /** The preview and the upload agree unless both a pick and a capture are pending. */
  lemma PreviewMatchesUploadWithOneImage(selected: Option<string>, captured: Option<string>)
    requires selected.None? || captured.None?
    ensures PreviewSource(selected, captured) == UploadSource(selected, captured)
  {
  }
}

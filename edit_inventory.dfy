/**
 * The Edit Inventory screen: loading and prefilling the form, the Save
 * button's three-stage validation, the photo replacement and the update.
 */
module EditInventory {
  import opened Base
  import opened Text
  import opened InventoryModel
  import opened Screen
  import Repository

  /**
   * The Save button's checks, each with its own message and in this order:
   * every field non-empty, then a quantity that is a non-negative `Int`, then
   * a price that parses (`parsedPrice`) and is non-negative.
   */
  function CheckEditForm(name: string, quantity: string, price: string, parsedPrice: Option<Price>): (r: FormCheck)
    ensures name == "" || quantity == "" || price == "" ==> r == Rejected("Please fill out all fields")
    ensures name != "" && quantity != "" && price != "" && (ParseInt(quantity).None? || ParseInt(quantity).value < 0) ==>
              r == Rejected("Please enter a valid quantity")
    ensures name != "" && quantity != "" && price != "" && ParseInt(quantity).Some? && ParseInt(quantity).value >= 0
            && (parsedPrice.None? || parsedPrice.value < 0.0) ==>
              r == Rejected("Please enter a valid price")
    ensures r.Accepted? <==>
              && name != "" && quantity != "" && price != ""
              && ParseInt(quantity).Some? && ParseInt(quantity).value >= 0
              && parsedPrice.Some? && parsedPrice.value >= 0.0
    ensures r.Accepted? ==> ParseInt(quantity) == Some(r.quantity) && parsedPrice == Some(r.price)
  {
    if name == "" || quantity == "" || price == "" then Rejected("Please fill out all fields")
    else
      var q := ParseInt(quantity);
      if q.None? || q.value < 0 then Rejected("Please enter a valid quantity")
      else if parsedPrice.None? || parsedPrice.value < 0.0 then Rejected("Please enter a valid price")
      else Accepted(q.value, parsedPrice.value)
  }

  /** The saved record: the loaded one with the four edited fields, keeping its id and owner. */
  function Edited(item: Inventory, name: string, quantity: Int32, price: Price, photo: string): (r: Inventory)
    ensures r.id == item.id && r.userId == item.userId
    ensures r.name == name && r.quantity == quantity && r.price == price && r.photo == photo
  {
    item.(name := name, quantity := quantity, price := price, photo := photo)
  }

  /**
   * A form left as prefilled from a record is accepted with the record's own
   * quantity and price, provided the record has a name, is not negative in
   * either, and its price text reads back as its price.
   */
  lemma PrefilledFormAccepted(item: Inventory, priceText: string)
    requires item.name != "" && priceText != ""
    requires item.quantity >= 0 && item.price >= 0.0
    ensures CheckEditForm(item.name, IntToString(item.quantity), priceText, Some(item.price))
            == Accepted(item.quantity, item.price)
  {
    ParseIntToString(item.quantity);
    NatToStringDigits(item.quantity);
  }

  /** A record stored with a negative quantity cannot be saved until the quantity is changed. */
  lemma NegativeQuantityBlocksSave(item: Inventory, priceText: string, parsedPrice: Option<Price>)
    requires item.name != "" && priceText != "" && item.quantity < 0
    ensures CheckEditForm(item.name, IntToString(item.quantity), priceText, parsedPrice)
            == Rejected("Please enter a valid quantity")
  {
    ParseIntToString(item.quantity);
  }

  /**
   * How the photo stage of the Save button ends: the blob it put in storage,
   * if any; whether that is a new image for the record; the photo URL the
   * record will carry; whether the replaced image was to be deleted; and the
   * error that stops the save, if any (its message may itself be null).
   */
  datatype PhotoStage =
    PhotoStage(stored: Option<string>, newImage: bool, photo: string, deletesOld: bool, failure: Option<Option<string>>)

  /**
   * The photo stage from its inputs: `source` is the image chosen, `initial`
   * the record's current photo URL.
   */
  function PhotoStageOf(source: Option<string>, imageReadable: bool, upload: UploadOutcome, initial: string,
                        oldDeleteOk: bool, oldDeleteMessage: Option<string>): (r: PhotoStage)
    ensures r.stored == (if source.Some? && imageReadable then StoredBlob(upload) else None)
    ensures r.newImage <==> source.Some? && imageReadable && upload.Uploaded?
    ensures r.newImage ==> r.stored == Some(r.photo)
    ensures r.photo == (if r.newImage then upload.url else initial)
    ensures r.deletesOld <==> r.newImage && initial != ""
    ensures source.Some? && imageReadable && !upload.Uploaded? ==> r.failure == Some(upload.message)
    ensures r.failure.Some? && !r.newImage ==> source.Some? && imageReadable && !upload.Uploaded?
    ensures r.newImage ==> (r.failure.Some? <==> r.deletesOld && !oldDeleteOk)
    ensures r.newImage && r.failure.Some? ==> r.failure == Some(oldDeleteMessage)
  {
    if source.Some? && imageReadable then
      match upload
      case UploadFailed(message) => PhotoStage(None, false, initial, false, Some(message))
      case UrlFailed(stored, message) => PhotoStage(Some(stored), false, initial, false, Some(message))
      case Uploaded(url) =>
        if initial == "" then PhotoStage(Some(url), true, url, false, None)
        else PhotoStage(Some(url), true, url, true, if oldDeleteOk then None else Some(oldDeleteMessage))
    else PhotoStage(None, false, initial, false, None)
  }

  /** The storage writes the photo stage makes: the stored image, then the deletion of the old one. */
  function PhotoWrites(stage: PhotoStage, initial: string): (r: seq<Repository.RemoteWrite>)
    ensures |r| <= 2
    ensures forall w :: w in r ==> w.PutBlob? || w.DeleteBlob?
    ensures forall w :: w in r && w.PutBlob? ==> stage.stored == Some(w.url)
    ensures stage.stored.Some? ==> |r| > 0 && r[0] == Repository.PutBlob(stage.stored.value)
    ensures forall w :: w in r && w.DeleteBlob? ==> w == Repository.DeleteBlob(initial)
    ensures Repository.DeleteBlob(initial) in r <==> stage.deletesOld
    ensures stage.deletesOld ==> |r| > 0 && r[|r| - 1] == Repository.DeleteBlob(initial)
  {
    (if stage.stored.Some? then [Repository.PutBlob(stage.stored.value)] else [])
    + (if stage.deletesOld then [Repository.DeleteBlob(initial)] else [])
  }

  /**
   * Replacing a stored photo whose deletion fails leaves the new image
   * stored and the old one in place, and the record still points at the old one.
   */
  lemma FailedDeletionKeepsBothImages(source: string, upload: UploadOutcome, initial: string, message: Option<string>)
    requires upload.Uploaded? && initial != ""
    ensures var stage := PhotoStageOf(Some(source), true, upload, initial, false, message);
            && stage.failure == Some(message)
            && stage.newImage && stage.deletesOld
            && PhotoWrites(stage, initial) == [Repository.PutBlob(upload.url), Repository.DeleteBlob(initial)]
  {
  }

  /**
   * When the image is stored but its download URL cannot be had, the save
   * stops with that error and the stored image is left behind, unused.
   */
  lemma UrlFailureLeavesImage(source: string, stored: string, message: Option<string>, initial: string,
                              oldDeleteOk: bool, oldDeleteMessage: Option<string>)
    ensures var stage := PhotoStageOf(Some(source), true, UrlFailed(stored, message), initial, oldDeleteOk, oldDeleteMessage);
            && stage.failure == Some(message)
            && !stage.newImage && stage.photo == initial
            && PhotoWrites(stage, initial) == [Repository.PutBlob(stored)]
  {
  }

  /** The Edit Inventory screen's state. */
  class EditInventoryForm {
    const viewModel: Repository.InventoryViewModel
    var item: Option<Inventory>
    var name: string
    var quantity: string
    var price: string
    var photoUri: Option<string>
    var capturedImageUri: Option<string>
    var isUploading: bool
    var initialPhotoUrl: string

    constructor(viewModel: Repository.InventoryViewModel)
      ensures this.viewModel == viewModel
      ensures item.None? && name == "" && quantity == "" && price == "" && initialPhotoUrl == ""
      ensures photoUri.None? && capturedImageUri.None? && !isUploading
    {
      this.viewModel := viewModel;
      item := None;
      name, quantity, price := "", "", "";
      photoUri, capturedImageUri := None, None;
      isUploading := false;
      initialPhotoUrl := "";
    }

    /**
     * Opening the screen on `itemId`: the record is read through the view
     * model and, when it comes back, prefills the form. `priceText` is the
     * record's `price.toString()`.
     */
    method Load(itemId: string, readOk: bool, priceText: string)
      modifies this
      ensures var store := viewModel.store;
              var uid := store.currentUser;
              item.Some? <==> uid.Some? && readOk && Repository.Owns(store.documents, itemId, uid.value)
      ensures item.Some? ==>
                && item.value == viewModel.store.documents[itemId]
                && Some(item.value.userId) == viewModel.store.currentUser
                && name == item.value.name && quantity == IntToString(item.value.quantity)
                && price == priceText && initialPhotoUrl == item.value.photo
      ensures item.None? ==>
                && name == old(name) && quantity == old(quantity) && price == old(price)
                && initialPhotoUrl == old(initialPhotoUrl)
      ensures photoUri == old(photoUri) && capturedImageUri == old(capturedImageUri)
      ensures isUploading == old(isUploading)
    {
      item := viewModel.GetInventoryItemById(itemId, readOk);
      if item.Some? {
        name := item.value.name;
        quantity := IntToString(item.value.quantity);
        price := priceText;
        initialPhotoUrl := item.value.photo;
      }
    }

    /** The gallery returns `uri` (null when cancelled); any pending capture is dropped. */
    method OnImagePicked(uri: Option<string>)
      modifies this
      ensures photoUri == uri && capturedImageUri.None?
      ensures item == old(item) && name == old(name) && quantity == old(quantity) && price == old(price)
      ensures initialPhotoUrl == old(initialPhotoUrl) && isUploading == old(isUploading)
    {
      photoUri := uri;
      capturedImageUri := None;
    }

    /** The camera is started on a new image location `uri`; a pending gallery pick is kept. */
    method OnCaptureStarted(uri: Option<string>)
      modifies this
      ensures capturedImageUri == uri && photoUri == old(photoUri)
      ensures item == old(item) && name == old(name) && quantity == old(quantity) && price == old(price)
      ensures initialPhotoUrl == old(initialPhotoUrl) && isUploading == old(isUploading)
    {
      capturedImageUri := uri;
    }

    /**
     * The image the screen shows: a capture, else a gallery pick, else the
     * stored photo when there is one.
     */
    function ShownImage(): (r: Option<string>)
      reads this
      ensures capturedImageUri.Some? ==> r == capturedImageUri
      ensures capturedImageUri.None? && photoUri.Some? ==> r == photoUri
      ensures capturedImageUri.None? && photoUri.None? ==>
                r == (if initialPhotoUrl != "" then Some(initialPhotoUrl) else None)
      ensures r.None? <==> capturedImageUri.None? && photoUri.None? && initialPhotoUrl == ""
    {
      var pending := PreviewSource(photoUri, capturedImageUri);
      if pending.Some? then pending
      else if initialPhotoUrl != "" then Some(initialPhotoUrl)
      else None
    }

    /**
     * The photo stage of the Save button, on the store: a chosen and readable
     * image is uploaded; once a new image is stored, the replaced one (when
     * there was one) is deleted. Returns the stage's outcome.
     */
    method ReplacePhoto(imageReadable: bool, upload: UploadOutcome, oldDeleteOk: bool, oldDeleteMessage: Option<string>)
      returns (stage: PhotoStage)
      modifies viewModel.store
      ensures stage == PhotoStageOf(UploadSource(photoUri, capturedImageUri), imageReadable, upload,
                                    initialPhotoUrl, oldDeleteOk, oldDeleteMessage)
      ensures viewModel.store.currentUser == old(viewModel.store.currentUser)
      ensures viewModel.store.documents == old(viewModel.store.documents)
      ensures viewModel.store.blobs ==
                (old(viewModel.store.blobs) + (if stage.stored.Some? then {stage.stored.value} else {}))
                - (if stage.deletesOld && oldDeleteOk then {initialPhotoUrl} else {})
      ensures viewModel.store.writes == old(viewModel.store.writes) + PhotoWrites(stage, initialPhotoUrl)
    {
      var updatedPhotoUrl := initialPhotoUrl;
      if (photoUri.Some? || capturedImageUri.Some?) && imageReadable {
        match upload {
          case UploadFailed(message) =>
            return PhotoStage(None, false, initialPhotoUrl, false, Some(message));
          case UrlFailed(stored, message) =>
            // The bytes are stored; only asking for their download URL failed.
            viewModel.store.PutBlob(stored);
            return PhotoStage(Some(stored), false, initialPhotoUrl, false, Some(message));
          case Uploaded(url) =>
            viewModel.store.PutBlob(url);
            updatedPhotoUrl := url;
        }
      } else {
        return PhotoStage(None, false, initialPhotoUrl, false, None);
      }
      if initialPhotoUrl != "" {
        viewModel.store.DeleteBlob(initialPhotoUrl, oldDeleteOk);
        if !oldDeleteOk {
          return PhotoStage(Some(updatedPhotoUrl), true, updatedPhotoUrl, true, Some(oldDeleteMessage));
        }
        return PhotoStage(Some(updatedPhotoUrl), true, updatedPhotoUrl, true, None);
      }
      return PhotoStage(Some(updatedPhotoUrl), true, updatedPhotoUrl, false, None);
    }

    /**
     * The Save button past its checks, with the form's quantity and price
     * already read: the photo stage, then the update through the view model.
     * Returns the toast shown and whether the screen closes.
     */
    method Save(quantityValue: Int32, priceValue: Price, imageReadable: bool, upload: UploadOutcome,
                oldDeleteOk: bool, oldDeleteMessage: Option<string>, writeOk: bool)
      returns (toast: string, closed: bool)
      modifies viewModel.store
      ensures viewModel.store.currentUser == old(viewModel.store.currentUser)
      ensures var stage := PhotoStageOf(UploadSource(photoUri, capturedImageUri), imageReadable, upload,
                                        initialPhotoUrl, oldDeleteOk, oldDeleteMessage);
              && viewModel.store.blobs ==
                   (old(viewModel.store.blobs) + (if stage.stored.Some? then {stage.stored.value} else {}))
                   - (if stage.deletesOld && oldDeleteOk then {initialPhotoUrl} else {})
              && (stage.failure.Some? || item.None? ==>
                    && toast == "Error: " + TemplateText(stage.failure.GetOr(None)) && !closed
                    && viewModel.store.documents == old(viewModel.store.documents)
                    && viewModel.store.writes == old(viewModel.store.writes) + PhotoWrites(stage, initialPhotoUrl))
              && (stage.failure.None? && item.Some? ==>
                    var updated := Edited(item.value, name, quantityValue, priceValue, stage.photo);
                    var owner := viewModel.store.currentUser == Some(updated.userId);
                    && closed == (owner && writeOk)
                    && toast == (if closed then "Item updated successfully" else "Failed to update item")
                    && viewModel.store.documents ==
                         (if closed then old(viewModel.store.documents)[updated.id := updated]
                          else old(viewModel.store.documents))
                    && viewModel.store.writes ==
                         old(viewModel.store.writes) + PhotoWrites(stage, initialPhotoUrl)
                         + (if owner then [Repository.SetDocument(updated.id, updated)] else []))
    {
      var stage := ReplacePhoto(imageReadable, upload, oldDeleteOk, oldDeleteMessage);
      if stage.failure.Some? {
        return "Error: " + TemplateText(stage.failure.value), false;
      }
      if item.None? {
        // `item!!` on a missing record throws an exception without a message.
        return "Error: " + TemplateText(None), false;
      }
      var updatedItem := Edited(item.value, name, quantityValue, priceValue, stage.photo);
      var success := viewModel.UpdateInventoryItem(updatedItem, writeOk);
      if success {
        toast, closed := "Item updated successfully", true;
      } else {
        toast, closed := "Failed to update item", false;
      }
    }

    /**
     * The Save button. `parsedPrice` is `price.toDoubleOrNull()`,
     * `imageReadable` whether a chosen image's bytes could be read, `upload`
     * how storing them ends, `oldDeleteOk`/`oldDeleteMessage` how deleting
     * the replaced image ends, and `writeOk` whether the update's write
     * succeeds. Returns the toast shown and whether the screen closes; a
     * missing record reads "Error: null".
     */
    method Submit(parsedPrice: Option<Price>, imageReadable: bool, upload: UploadOutcome,
                  oldDeleteOk: bool, oldDeleteMessage: Option<string>, writeOk: bool)
      returns (toast: string, closed: bool)
      modifies this, viewModel.store
      ensures item == old(item) && name == old(name) && quantity == old(quantity) && price == old(price)
      ensures photoUri == old(photoUri) && capturedImageUri == old(capturedImageUri)
      ensures initialPhotoUrl == old(initialPhotoUrl)
      ensures viewModel.store.currentUser == old(viewModel.store.currentUser)
      ensures var check := CheckEditForm(name, quantity, price, parsedPrice);
              check.Rejected? ==>
                && toast == check.message && !closed && isUploading == old(isUploading)
                && viewModel.store.documents == old(viewModel.store.documents)
                && viewModel.store.blobs == old(viewModel.store.blobs)
                && viewModel.store.writes == old(viewModel.store.writes)
      ensures var check := CheckEditForm(name, quantity, price, parsedPrice);
              var stage := PhotoStageOf(UploadSource(photoUri, capturedImageUri), imageReadable, upload,
                                        initialPhotoUrl, oldDeleteOk, oldDeleteMessage);
              check.Accepted? ==>
                && !isUploading
                && viewModel.store.blobs ==
                     (old(viewModel.store.blobs) + (if stage.stored.Some? then {stage.stored.value} else {}))
                     - (if stage.deletesOld && oldDeleteOk then {initialPhotoUrl} else {})
                && (stage.failure.Some? || item.None? ==>
                      && toast == "Error: " + TemplateText(stage.failure.GetOr(None)) && !closed
                      && viewModel.store.documents == old(viewModel.store.documents)
                      && viewModel.store.writes == old(viewModel.store.writes) + PhotoWrites(stage, initialPhotoUrl))
                && (stage.failure.None? && item.Some? ==>
                      var updated := Edited(item.value, name, check.quantity, check.price, stage.photo);
                      var owner := viewModel.store.currentUser == Some(updated.userId);
                      && closed == (owner && writeOk)
                      && toast == (if closed then "Item updated successfully" else "Failed to update item")
                      && viewModel.store.documents ==
                           (if closed then old(viewModel.store.documents)[updated.id := updated]
                            else old(viewModel.store.documents))
                      && viewModel.store.writes ==
                           old(viewModel.store.writes) + PhotoWrites(stage, initialPhotoUrl)
                           + (if owner then [Repository.SetDocument(updated.id, updated)] else []))
    {
      if name == "" || quantity == "" || price == "" {
        return "Please fill out all fields", false;
      }
      var quantityInt := ParseInt(quantity);
      if quantityInt.None? || quantityInt.value < 0 {
        return "Please enter a valid quantity", false;
      }
      if parsedPrice.None? || parsedPrice.value < 0.0 {
        return "Please enter a valid price", false;
      }
      isUploading := true;
      toast, closed := Save(quantityInt.value, parsedPrice.value, imageReadable, upload, oldDeleteOk, oldDeleteMessage, writeOk);
      isUploading := false;
    }
  }
}

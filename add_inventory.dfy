/**
 * The Add Inventory screen: its form state, the two image sources, and the
 * Add button's validation, upload and record construction.
 */
module AddInventory {
  import opened Base
  import opened Text
  import opened InventoryModel
  import opened Screen
  import Repository

  /**
   * The Add button's checks, in order: every field non-empty, then a
   * quantity that `toIntOrNull` accepts and a price that `toDoubleOrNull`
   * accepts (`parsedPrice`), neither of them negative.
   */
  function CheckAddForm(name: string, quantity: string, price: string, parsedPrice: Option<Price>): (r: FormCheck)
    ensures name == "" || quantity == "" || price == "" ==> r == Rejected("Please fill all required fields")
    ensures r.Accepted? <==>
              && name != "" && quantity != "" && price != ""
              && ParseInt(quantity).Some? && ParseInt(quantity).value >= 0
              && parsedPrice.Some? && parsedPrice.value >= 0.0
    ensures r.Rejected? && name != "" && quantity != "" && price != "" ==> r.message == "Please enter valid numbers"
    ensures r.Accepted? ==> ParseInt(quantity) == Some(r.quantity) && parsedPrice == Some(r.price)
  {
    if name == "" || quantity == "" || price == "" then Rejected("Please fill all required fields")
    else
      var q := ParseInt(quantity);
      if q.None? || parsedPrice.None? || q.value < 0 || parsedPrice.value < 0.0 then Rejected("Please enter valid numbers")
      else Accepted(q.value, parsedPrice.value)
  }

  /** An accepted quantity is a non-negative `Int` written without blanks. */
  lemma AcceptedQuantity(name: string, quantity: string, price: string, parsedPrice: Option<Price>)
    requires CheckAddForm(name, quantity, price, parsedPrice).Accepted?
    ensures !IsBlank(quantity)
    ensures 0 <= CheckAddForm(name, quantity, price, parsedPrice).quantity
  {
  }

  /** Written-out numbers always pass: the text of any non-negative `Int` is accepted as that `Int`. */
  lemma WrittenQuantityAccepted(name: string, n: Int32, price: string, p: Price)
    requires name != "" && price != "" && n >= 0 && p >= 0.0
    ensures CheckAddForm(name, IntToString(n), price, Some(p)) == Accepted(n, p)
  {
    ParseIntToString(n);
  }

  /** The Add Inventory screen's state. */
  class AddInventoryForm {
    const viewModel: Repository.InventoryViewModel
    var name: string
    var quantity: string
    var price: string
    var selectedImageUri: Option<string>
    var capturedImageUri: Option<string>
    var isUploading: bool

    constructor(viewModel: Repository.InventoryViewModel)
      ensures this.viewModel == viewModel
      ensures name == "" && quantity == "" && price == ""
      ensures selectedImageUri.None? && capturedImageUri.None? && !isUploading
    {
      this.viewModel := viewModel;
      name, quantity, price := "", "", "";
      selectedImageUri, capturedImageUri := None, None;
      isUploading := false;
    }

    /** The gallery returns `uri` (null when cancelled); any pending capture is dropped. */
    method OnImagePicked(uri: Option<string>)
      modifies this
      ensures selectedImageUri == uri && capturedImageUri.None?
      ensures name == old(name) && quantity == old(quantity) && price == old(price)
      ensures isUploading == old(isUploading)
    {
      selectedImageUri := uri;
      capturedImageUri := None;
    }

    /**
     * The camera is started on a new image location `uri` (null when none
     * could be made); a pending gallery pick is kept.
     */
    method OnCaptureStarted(uri: Option<string>)
      modifies this
      ensures capturedImageUri == uri && selectedImageUri == old(selectedImageUri)
      ensures name == old(name) && quantity == old(quantity) && price == old(price)
      ensures isUploading == old(isUploading)
    {
      capturedImageUri := uri;
    }

    /**
     * The Add button past its checks, with the form's quantity and price
     * already read: the chosen image is read and uploaded, then the record
     * is added through the view model. Returns the toast shown and whether
     * the screen closes.
     */
    method Save(quantityValue: Int32, priceValue: Price, imageReadable: bool, upload: UploadOutcome,
                newId: string, writeOk: bool)
      returns (toast: string, closed: bool)
      modifies viewModel.store
      ensures viewModel.store.currentUser == old(viewModel.store.currentUser)
      ensures var source := UploadSource(selectedImageUri, capturedImageUri);
              source.Some? && !imageReadable ==>
                && toast == "Failed to read image data" && !closed
                && viewModel.store.documents == old(viewModel.store.documents)
                && viewModel.store.blobs == old(viewModel.store.blobs)
                && viewModel.store.writes == old(viewModel.store.writes)
      ensures var source := UploadSource(selectedImageUri, capturedImageUri);
              var orphan := StoredBlob(upload);
              source.Some? && imageReadable && !upload.Uploaded? ==>
                && toast == "Failed to add item: " + TemplateText(upload.message) && !closed
                && viewModel.store.documents == old(viewModel.store.documents)
                && viewModel.store.blobs == old(viewModel.store.blobs) + (if orphan.Some? then {orphan.value} else {})
                && viewModel.store.writes ==
                     old(viewModel.store.writes) + (if orphan.Some? then [Repository.PutBlob(orphan.value)] else [])
      ensures var source := UploadSource(selectedImageUri, capturedImageUri);
              var user := viewModel.store.currentUser;
              source.None? || (imageReadable && upload.Uploaded?) ==>
                var photo := if source.Some? then upload.url else "";
                var stored := Inventory(newId, name, quantityValue, photo, priceValue, user.GetOr(""));
                && closed == (user.Some? && writeOk)
                && toast == (if closed then "Item Added" else "Failed to add item")
                && viewModel.store.blobs == old(viewModel.store.blobs) + (if source.Some? then {photo} else {})
                && viewModel.store.documents ==
                     (if closed then old(viewModel.store.documents)[newId := stored] else old(viewModel.store.documents))
                && viewModel.store.writes ==
                     old(viewModel.store.writes)
                     + (if source.Some? then [Repository.PutBlob(photo)] else [])
                     + (if user.Some? then [Repository.SetDocument(newId, stored)] else [])
    {
      var item: Inventory;
      if selectedImageUri.Some? || capturedImageUri.Some? {
        if !imageReadable {
          return "Failed to read image data", false;
        }
        match upload {
          case UploadFailed(message) =>
            return "Failed to add item: " + TemplateText(message), false;
          case UrlFailed(stored, message) =>
            // The bytes are stored; only asking for their download URL failed.
            viewModel.store.PutBlob(stored);
            return "Failed to add item: " + TemplateText(message), false;
          case Uploaded(url) =>
            viewModel.store.PutBlob(url);
            item := Inventory("", name, quantityValue, url, priceValue, "");
        }
      } else {
        item := Inventory("", name, quantityValue, "", priceValue, "");
      }
      var success := viewModel.AddInventoryItem(item, newId, writeOk);
      if success {
        toast, closed := "Item Added", true;
      } else {
        toast, closed := "Failed to add item", false;
      }
    }

    /**
     * The Add button. `parsedPrice` is `price.toDoubleOrNull()`,
     * `imageReadable` whether the chosen image's bytes could be read,
     * `upload` how storing them ends, and `newId`/`writeOk` the store's new
     * document id and whether the write succeeds. Returns the toast shown and
     * whether the screen closes.
     */
    method Submit(parsedPrice: Option<Price>, imageReadable: bool, upload: UploadOutcome, newId: string, writeOk: bool)
      returns (toast: string, closed: bool)
      modifies this, viewModel.store
      ensures name == old(name) && quantity == old(quantity) && price == old(price)
      ensures selectedImageUri == old(selectedImageUri) && capturedImageUri == old(capturedImageUri)
      ensures viewModel.store.currentUser == old(viewModel.store.currentUser)
      ensures isUploading == (if name == "" || quantity == "" || price == "" then old(isUploading) else false)
      ensures var check := CheckAddForm(name, quantity, price, parsedPrice);
              var source := UploadSource(selectedImageUri, capturedImageUri);
              check.Rejected? || (source.Some? && !imageReadable) ==>
                && toast == (if check.Rejected? then check.message else "Failed to read image data") && !closed
                && viewModel.store.documents == old(viewModel.store.documents)
                && viewModel.store.blobs == old(viewModel.store.blobs)
                && viewModel.store.writes == old(viewModel.store.writes)
      ensures var check := CheckAddForm(name, quantity, price, parsedPrice);
              var source := UploadSource(selectedImageUri, capturedImageUri);
              var orphan := StoredBlob(upload);
              check.Accepted? && source.Some? && imageReadable && !upload.Uploaded? ==>
                && toast == "Failed to add item: " + TemplateText(upload.message) && !closed
                && viewModel.store.documents == old(viewModel.store.documents)
                && viewModel.store.blobs == old(viewModel.store.blobs) + (if orphan.Some? then {orphan.value} else {})
                && viewModel.store.writes ==
                     old(viewModel.store.writes) + (if orphan.Some? then [Repository.PutBlob(orphan.value)] else [])
      ensures var check := CheckAddForm(name, quantity, price, parsedPrice);
              var source := UploadSource(selectedImageUri, capturedImageUri);
              var user := viewModel.store.currentUser;
              check.Accepted? && (source.None? || (imageReadable && upload.Uploaded?)) ==>
                var photo := if source.Some? then upload.url else "";
                var stored := Inventory(newId, name, check.quantity, photo, check.price, user.GetOr(""));
                && closed == (user.Some? && writeOk)
                && toast == (if closed then "Item Added" else "Failed to add item")
                && viewModel.store.blobs == old(viewModel.store.blobs) + (if source.Some? then {photo} else {})
                && viewModel.store.documents ==
                     (if closed then old(viewModel.store.documents)[newId := stored] else old(viewModel.store.documents))
                && viewModel.store.writes ==
                     old(viewModel.store.writes)
                     + (if source.Some? then [Repository.PutBlob(photo)] else [])
                     + (if user.Some? then [Repository.SetDocument(newId, stored)] else [])
    {
      if name == "" || quantity == "" || price == "" {
        return "Please fill all required fields", false;
      }
      isUploading := true;
      var quantityInt := ParseInt(quantity);
      if quantityInt.None? || parsedPrice.None? || quantityInt.value < 0 || parsedPrice.value < 0.0 {
        isUploading := false;
        return "Please enter valid numbers", false;
      }
      toast, closed := Save(quantityInt.value, parsedPrice.value, imageReadable, upload, newId, writeOk);
      isUploading := false;
    }
  }
}

# EasyInventory in Dafny

This is a Dafny model of the core of EasyInventory, an Android app for keeping an inventory. Each signed-in user owns records that hold a name, a quantity, a price and a photo. The model proves properties of the following parts:

- **Inventory list.** It is filtered by a case-insensitive search and sorted stably by name, quantity or price, ascending or descending.
- **Inventory view model.** It adds, loads, reads, updates and deletes records in the `inventory` collection. Ownership is checked against the signed-in user's id. Photos live in a blob store.
- **Authentication view model.** It logs in by user name through a `users` lookup, registers (the name must be unused, then the account is created and the user record written), logs out, sends password resets and fetches the user name. `authState` moves through seven states.
- **Login and registration screens.** They cover the input checks, the "Forgot Password" dialog, and how each screen reacts to `authState`.
- **Add and Edit Inventory screens.** They cover the form checks, which image is shown and which is uploaded, and the sequence of blob and document writes, including every error path.
- **Report.** It covers the total quantity as a 32-bit `Int` sum and the layout of the PDF page as a list of drawing operations with their coordinates.

The inventory collection and the image storage are represented by `Repository.Store`, together with the id of the signed-in user as the inventory view model sees it:

- a map of documents;
- a set of stored blob URLs;
- the signed-in user's id;
- a ghost log of every remote write.

How each remote call ends (success, failure, an exception's message, the new document id) is passed in as a parameter. This lets every branch of the source be stated and proved.

Modules, one file each:
- `Base`: `Option`, the 32-bit `Int` range, and Kotlin's rendering of a null in a string template.
- `Text`: Kotlin's `contains(ignoreCase)`, `isBlank`, `String.compareTo`, `toIntOrNull` and `Int.toString`.
- `InventoryModel`: the record.
- `ViewInventory`: the list.
- `Repository`: the store and `InventoryViewModel`.
- `Auth`: `AuthViewModel`.
- `Screen`: what the two inventory forms share.
- `LoginScreen` and `RegisterScreen`.
- `AddInventory` and `EditInventory`.
- `Report`.

Some behaviours of the source follow from the contracts and lemmas:
- `Repository.InventoryViewModel.UpdateInventoryItem` trusts the `userId` carried by the record it is given.
- Adding with an image while nobody is signed in stores the image and then writes no record, so the image is left behind (`AddInventory.AddInventoryForm.Submit`).
- When an image is stored but its download URL request fails, both forms report the failure and the image stays in storage unused (`AddInventory.AddInventoryForm.Submit`, `EditInventory.UrlFailureLeavesImage`).
- The forms show the camera image first but upload the gallery image first (`Screen.PreviewCanDifferFromUpload`).
- The reset dialog always says the email was sent (`LoginScreen.ResetToastIgnoresOutcome`).
- Six spaces pass the password check (`RegisterScreen.SixSpacesPass`).
- Rows after the sixteenth are drawn below the bottom of the page (`Report.OffPageRows`).
- The 15th and 16th rows are drawn into the band of the two totals lines (`Report.RowsReachSummary`).

## Model

| member | source | states |
|---|---|---|
| InventoryModel.DefaultIsEmpty | app/src/main/java/com/example/easyinventory/model/Inventory.kt:6-13 | a record built from the defaults has empty id, name, photo and owner, and zero quantity and price |
| Text.ContainsIgnoringCaseAt | app/src/main/java/com/example/easyinventory/ui/ViewInventoryScreen.kt:48 | `contains(query, ignoreCase = true)` holds exactly when the query matches, ignoring case, at some position of the text |
| Text.ContainsIgnoringCaseTrivial | app/src/main/java/com/example/easyinventory/ui/ViewInventoryScreen.kt:48 | every name contains the empty query and itself |
| Text.StrLeTotal | app/src/main/java/com/example/easyinventory/ui/ViewInventoryScreen.kt:51 | the name order of `compareBy { it.name }` is total |
| Text.StrLeTransitive | app/src/main/java/com/example/easyinventory/ui/ViewInventoryScreen.kt:51 | the name order is transitive |
| Text.StrLeAntisymmetric | app/src/main/java/com/example/easyinventory/ui/ViewInventoryScreen.kt:51 | two names that are each at most the other are equal |
| Text.ParseInt | app/src/main/java/com/example/easyinventory/ui/EditInventoryScreen.kt:202 | `toIntOrNull` accepts only non-empty, non-blank text |
| Text.NatToStringDigits | app/src/main/java/com/example/easyinventory/ui/EditInventoryScreen.kt:59 | the decimal text of a natural number is a non-empty run of digits that reads back as the number |
| Text.ParseIntToString | app/src/main/java/com/example/easyinventory/ui/EditInventoryScreen.kt:59 | `toIntOrNull` of `Int.toString` gives back the same `Int` for every 32-bit value, negative ones included |
| ViewInventory.NotAfterTotal | app/src/main/java/com/example/easyinventory/ui/ViewInventoryScreen.kt:50-55 | every comparator the screen can choose orders any two records one way or the other |
| ViewInventory.NotAfterTransitive | app/src/main/java/com/example/easyinventory/ui/ViewInventoryScreen.kt:50-55 | every comparator the screen can choose is transitive |
| ViewInventory.InsertPermutes | app/src/main/java/com/example/easyinventory/ui/ViewInventoryScreen.kt:49 | inserting a record adds exactly one copy of it |
| ViewInventory.InsertSorted | app/src/main/java/com/example/easyinventory/ui/ViewInventoryScreen.kt:49 | inserting into a sorted list keeps it sorted |
| ViewInventory.SortWithCorrect | app/src/main/java/com/example/easyinventory/ui/ViewInventoryScreen.kt:49 | `sortedWith` returns a permutation of its input, sorted by the comparator |
| ViewInventory.InsertStable | app/src/main/java/com/example/easyinventory/ui/ViewInventoryScreen.kt:49 | an inserted record goes after every record that compares equal to it |
| ViewInventory.SortStable | app/src/main/java/com/example/easyinventory/ui/ViewInventoryScreen.kt:49 | `sortedWith` is stable: records that compare equal keep their relative order |
| ViewInventory.Matching | app/src/main/java/com/example/easyinventory/ui/ViewInventoryScreen.kt:48 | the filter keeps only records whose name contains the query, ignoring case, and never grows the list |
| ViewInventory.MatchingCount | app/src/main/java/com/example/easyinventory/ui/ViewInventoryScreen.kt:48 | each matching record is kept as many times as it occurs, each other record never |
| ViewInventory.MatchingEmptyQuery | app/src/main/java/com/example/easyinventory/ui/ViewInventoryScreen.kt:48 | an empty search keeps the whole list in its order |
| ViewInventory.FilteredItems | app/src/main/java/com/example/easyinventory/ui/ViewInventoryScreen.kt:47-56 | the shown list is a permutation of the matching records, sorted by the chosen comparator |
| ViewInventory.FilteredItemsAreTheMatches | app/src/main/java/com/example/easyinventory/ui/ViewInventoryScreen.kt:47-56 | a record is shown, with its multiplicity, exactly when it is in the list and its name contains the query |
| ViewInventory.EmptySearchKeepsAll | app/src/main/java/com/example/easyinventory/ui/ViewInventoryScreen.kt:47-56 | with an empty search every record is shown |
| ViewInventory.FilteredItemsOrder | app/src/main/java/com/example/easyinventory/ui/ViewInventoryScreen.kt:50-55 | for each attribute and order, earlier shown records have the smaller (ascending) or larger (descending) name, quantity or price; an unknown attribute orders by name ascending |
| ViewInventory.UnknownAttributeSortsByName | app/src/main/java/com/example/easyinventory/ui/ViewInventoryScreen.kt:54 | an unknown sort attribute gives the same list as name ascending, whatever the order setting |
| ViewInventory.FilteredItemsStable | app/src/main/java/com/example/easyinventory/ui/ViewInventoryScreen.kt:47-56 | records that compare equal are shown in the order they were loaded |
| ViewInventory.InitialListing | app/src/main/java/com/example/easyinventory/ui/ViewInventoryScreen.kt:38-40 | the screen opens sorting by name ascending and showing every loaded record |
| Repository.OwnedListingFacts | app/src/main/java/com/example/easyinventory/viewmodel/InventoryViewModel.kt:44-52 | a loaded listing holds only the user's records, one per owned document |
| Repository.ListingsArePermutations | app/src/main/java/com/example/easyinventory/viewmodel/InventoryViewModel.kt:44-52 | any two listings of the same documents for the same user differ only in order |
| Repository.OwnedIdsAfterSet | app/src/main/java/com/example/easyinventory/viewmodel/InventoryViewModel.kt:81 | writing a document adds its id to the owner's records, or removes it when the record now names another owner |
| Repository.OwnedIdsAfterDelete | app/src/main/java/com/example/easyinventory/viewmodel/InventoryViewModel.kt:108 | deleting a document removes exactly that id from the owner's records |
| Repository.Store.constructor | app/src/main/java/com/example/easyinventory/viewmodel/InventoryViewModel.kt:16-18 | the backend starts with the given documents, blobs and user, and nothing written |
| Repository.Store.SetDocument | app/src/main/java/com/example/easyinventory/viewmodel/InventoryViewModel.kt:81 | a document write logs the write and, when it succeeds, replaces the document under its id |
| Repository.Store.DeleteDocument | app/src/main/java/com/example/easyinventory/viewmodel/InventoryViewModel.kt:108 | a document delete logs the delete and, when it succeeds, removes the id |
| Repository.Store.PutBlob | app/src/main/java/com/example/easyinventory/ui/AddInventoryScreen.kt:213-214 | a completed upload stores the blob under its download URL and logs it |
| Repository.Store.DeleteBlob | app/src/main/java/com/example/easyinventory/viewmodel/InventoryViewModel.kt:102-103 | a blob delete logs the delete and, when it succeeds, removes the blob |
| Repository.InventoryViewModel.constructor | app/src/main/java/com/example/easyinventory/viewmodel/InventoryViewModel.kt:20-21 | the view model starts with an empty list |
| Repository.InventoryViewModel.AddInventoryItem | app/src/main/java/com/example/easyinventory/viewmodel/InventoryViewModel.kt:24-39 | with nobody signed in: false and nothing written; otherwise the record is written under the new id with the user as owner, and the result is the write's success |
| Repository.InventoryViewModel.LoadInventoryItems | app/src/main/java/com/example/easyinventory/viewmodel/InventoryViewModel.kt:42-54 | with nobody signed in, or on a listener error, the list is unchanged; otherwise it becomes exactly the user's records, each once, in some order |
| Repository.InventoryViewModel.GetInventoryItemById | app/src/main/java/com/example/easyinventory/viewmodel/InventoryViewModel.kt:57-71 | a record comes back exactly when a user is signed in, the read succeeds and the document exists and is owned by that user; it is the stored one |
| Repository.InventoryViewModel.UpdateInventoryItem | app/src/main/java/com/example/easyinventory/viewmodel/InventoryViewModel.kt:74-88 | writes only when the record's own `userId` is the signed-in user's; the result is the write's success; nothing else changes |
| Repository.InventoryViewModel.DeleteInventoryItem | app/src/main/java/com/example/easyinventory/viewmodel/InventoryViewModel.kt:91-118 | only an owned, readable record is deleted; its photo is deleted first, and a failed photo delete stops before the document; true exactly when both deletes succeed |
| Report.Wrap32 | app/src/main/java/com/example/easyinventory/ui/ReportScreen.kt:63 | 32-bit wrap-around: the same value modulo 2^32, unchanged inside the `Int` range |
| Report.SumFromWraps | app/src/main/java/com/example/easyinventory/ui/ReportScreen.kt:63 | adding step by step on an `Int` equals wrapping the exact sum once |
| Report.TotalItems | app/src/main/java/com/example/easyinventory/ui/ReportScreen.kt:62-63 | the total quantity is the exact sum wrapped to 32 bits, and the exact sum when that fits |
| Report.QuantitiesAppend | app/src/main/java/com/example/easyinventory/ui/ReportScreen.kt:63 | the exact sum over two lists joined is the sum of their sums |
| Report.QuantitiesIgnoreOrder | app/src/main/java/com/example/easyinventory/ui/ReportScreen.kt:63 | the exact sum does not depend on the order of the records |
| Report.TotalItemsIgnoresOrder | app/src/main/java/com/example/easyinventory/ui/ReportScreen.kt:62-63 | the total quantity does not depend on the order in which records arrive |
| Report.TotalItemsCountsUnits | app/src/main/java/com/example/easyinventory/ui/ReportScreen.kt:62-63 | no records total 0; one record totals its own quantity |
| Report.TotalItemsAppend | app/src/main/java/com/example/easyinventory/ui/ReportScreen.kt:62-63 | the total of two lists joined is the wrapped sum of their totals |
| Report.ListingTotalAgrees | app/src/main/java/com/example/easyinventory/ui/ReportScreen.kt:62-63 | any two listings of the same user's records give the same total |
| Report.ReportAuthor | app/src/main/java/com/example/easyinventory/ui/ReportScreen.kt:104 | the report names the user, or "Unknown User" when there is no name |
| Report.GeneratePdfReport | app/src/main/java/com/example/easyinventory/ui/ReportScreen.kt:179-232 | the drawing loop, moving down 40 points per record, draws exactly the header, one row per record at its height, and the summary |
| Report.RowsLength | app/src/main/java/com/example/easyinventory/ui/ReportScreen.kt:221-227 | four cells are drawn per record |
| Report.RowsAt | app/src/main/java/com/example/easyinventory/ui/ReportScreen.kt:220-227 | cell c of record i is drawn at the row height 230 + 40·i |
| Report.ReportPageLayout | app/src/main/java/com/example/easyinventory/ui/ReportScreen.kt:190-232 | the page is the 8 header operations, then 4 cells per record in record order, then the two summary lines |
| Report.SplitIndex | app/src/main/java/com/example/easyinventory/ui/ReportScreen.kt:221-226 | each row cell's position on the page splits into a record number and a column |
| Report.OffPageRows | app/src/main/java/com/example/easyinventory/ui/ReportScreen.kt:180-232 | every operation starts inside the 595-point page width; an operation lies below the 842-point page exactly when it is a cell of the 17th or a later record |
| Report.RowsReachSummary | app/src/main/java/com/example/easyinventory/ui/ReportScreen.kt:220-232 | the rows of the 15th and 16th records fall on the page within 20 points above the totals line, or below it |
| Auth.SignInError | app/src/main/java/com/example/easyinventory/viewmodel/AuthViewModel.kt:85-99 | only an unknown user gets "No account found with this email."; every other sign-in failure reads as an incorrect password |
| Auth.CreateError | app/src/main/java/com/example/easyinventory/viewmodel/AuthViewModel.kt:140-144 | the registration message for each account-creation failure, with "Registration failed." when none is given |
| Auth.ResetMessage | app/src/main/java/com/example/easyinventory/viewmodel/AuthViewModel.kt:170-178 | the message for each outcome of a password reset |
| Auth.FetchedUsername | app/src/main/java/com/example/easyinventory/viewmodel/AuthViewModel.kt:188-197 | the stored name, and "Unknown User" for a failed read, a missing document or a missing name |
| Auth.ExtendTrace | app/src/main/java/com/example/easyinventory/viewmodel/AuthViewModel.kt:16-24 | a history of states extended by an allowed move is still a history |
| Auth.OutcomesFollowProgress | app/src/main/java/com/example/easyinventory/viewmodel/AuthViewModel.kt:16-24 | in any history, a sign-in outcome directly follows `AUTHENTICATING` and a registration outcome directly follows `REGISTERING` |
| Auth.AuthViewModel.constructor | app/src/main/java/com/example/easyinventory/viewmodel/AuthViewModel.kt:30-45 | starts `IDLE` with no message; with a user signed in, fetches that user's name |
| Auth.AuthViewModel.LoginWithUsername | app/src/main/java/com/example/easyinventory/viewmodel/AuthViewModel.kt:47-74 | moves to `AUTHENTICATING` and clears the message, then fails with the query's message, "Username not found." or "Email not found for username.", or signs in the first match's e-mail |
| Auth.AuthViewModel.Login | app/src/main/java/com/example/easyinventory/viewmodel/AuthViewModel.kt:76-103 | success leads to `AUTHENTICATED`; failure leads to `AUTHENTICATION_FAILED` with its message |
| Auth.AuthViewModel.Register | app/src/main/java/com/example/easyinventory/viewmodel/AuthViewModel.kt:106-159 | `REGISTERED` is reached exactly when the name is unused, the account is created and the user record is written; each failure gives its message and makes only the calls before it |
| Auth.AuthViewModel.CreateAndStoreUser | app/src/main/java/com/example/easyinventory/viewmodel/AuthViewModel.kt:117-147 | after account creation, the user record is written under the new id (empty when there is none); the outcome state and message follow each result |
| Auth.AuthViewModel.Logout | app/src/main/java/com/example/easyinventory/viewmodel/AuthViewModel.kt:162-165 | signs out and returns to `IDLE`, keeping the message and name |
| Auth.AuthViewModel.SendPasswordResetEmail | app/src/main/java/com/example/easyinventory/viewmodel/AuthViewModel.kt:167-182 | only the message changes, to the reset outcome's message; the state does not move |
| Auth.AuthViewModel.FetchUsernameFromFirestore | app/src/main/java/com/example/easyinventory/viewmodel/AuthViewModel.kt:184-198 | the name becomes the stored one or "Unknown User"; nothing else changes |
| Screen.StoredBlob | app/src/main/java/com/example/easyinventory/ui/AddInventoryScreen.kt:211-214 | an upload leaves an image in storage unless storing its bytes fails, including when only the URL request fails |
| Screen.UploadSource | app/src/main/java/com/example/easyinventory/ui/AddInventoryScreen.kt:204-205 | an image is uploaded when either is chosen, the gallery pick taking precedence |
| Screen.PreviewSource | app/src/main/java/com/example/easyinventory/ui/AddInventoryScreen.kt:153-172 | an image is shown when either is chosen, the camera image taking precedence |
| Screen.PreviewCanDifferFromUpload | app/src/main/java/com/example/easyinventory/ui/AddInventoryScreen.kt:153-205 | with both a gallery pick and a capture, the form shows one image and uploads the other |
| Screen.PreviewMatchesUploadWithOneImage | app/src/main/java/com/example/easyinventory/ui/AddInventoryScreen.kt:153-205 | with at most one image chosen, the shown and the uploaded image agree |
| LoginScreen.OnLoginClick | app/src/main/java/com/example/easyinventory/ui/LoginScreen.kt:94-102 | a blank user name, then a blank password, is refused with its toast; otherwise the login is called with the text as typed |
| LoginScreen.OnResetClick | app/src/main/java/com/example/easyinventory/ui/LoginScreen.kt:176-184 | a reset is requested exactly when the e-mail is not blank |
| LoginScreen.ResetToastIgnoresOutcome | app/src/main/java/com/example/easyinventory/ui/LoginScreen.kt:141-145 | the dialog announces the email as sent even when the address is unknown |
| LoginScreen.OnAuthState | app/src/main/java/com/example/easyinventory/ui/LoginScreen.kt:36-46 | to the dashboard exactly on `AUTHENTICATED`; a toast exactly on `AUTHENTICATION_FAILED` with a message |
| LoginScreen.FailedLoginFeedback | app/src/main/java/com/example/easyinventory/ui/LoginScreen.kt:36-46 | every failed sign-in is shown; a failure without a message is silent |
| RegisterScreen.OnRegisterClick | app/src/main/java/com/example/easyinventory/ui/RegisterScreen.kt:102-114 | the three checks in order, each with its toast; registration is called exactly when all pass |
| RegisterScreen.SixSpacesPass | app/src/main/java/com/example/easyinventory/ui/RegisterScreen.kt:110 | a password of six spaces is blank and still passes |
| RegisterScreen.OnAuthState | app/src/main/java/com/example/easyinventory/ui/RegisterScreen.kt:34-44 | to the dashboard exactly on `REGISTERED`; a toast exactly on `REGISTRATION_FAILED` with a message |
| RegisterScreen.FailedCreationFeedback | app/src/main/java/com/example/easyinventory/ui/RegisterScreen.kt:39-43 | every failed account creation is shown, since its message is never null |
| AddInventory.CheckAddForm | app/src/main/java/com/example/easyinventory/ui/AddInventoryScreen.kt:180-199 | empty fields are refused first; the form is accepted exactly when the quantity parses as a non-negative `Int` and the price as a non-negative number, with those values |
| AddInventory.AcceptedQuantity | app/src/main/java/com/example/easyinventory/ui/AddInventoryScreen.kt:189-191 | an accepted quantity is not blank and not negative |
| AddInventory.WrittenQuantityAccepted | app/src/main/java/com/example/easyinventory/ui/AddInventoryScreen.kt:189-191 | the written form of any non-negative `Int` is accepted as that `Int` |
| AddInventory.AddInventoryForm.constructor | app/src/main/java/com/example/easyinventory/ui/AddInventoryScreen.kt:43-48 | the form starts empty, with no image and not uploading |
| AddInventory.AddInventoryForm.OnImagePicked | app/src/main/java/com/example/easyinventory/ui/AddInventoryScreen.kt:67-70 | a gallery result replaces the pick and drops the capture |
| AddInventory.AddInventoryForm.OnCaptureStarted | app/src/main/java/com/example/easyinventory/ui/AddInventoryScreen.kt:282-283 | starting the camera sets the capture and keeps the gallery pick |
| AddInventory.AddInventoryForm.Save | app/src/main/java/com/example/easyinventory/ui/AddInventoryScreen.kt:201-255 | an unreadable image or a failed upload stops with its toast and writes no record; an image stored before its URL request failed stays in storage; otherwise the image is stored and the record added with its URL, owned by the user |
| AddInventory.AddInventoryForm.Submit | app/src/main/java/com/example/easyinventory/ui/AddInventoryScreen.kt:178-256 | the Add button: each refusal or failure gives its toast and writes no record, leaving storage as it was except for an image stored before its URL request failed; otherwise the store changes as the view model's add says, and the screen closes exactly when the record was written |
| EditInventory.CheckEditForm | app/src/main/java/com/example/easyinventory/ui/EditInventoryScreen.kt:197-212 | the three checks in order, each with its toast; the form is accepted exactly when all fields are non-empty, the quantity parses as a non-negative `Int` and the price as a non-negative number, and then carries those values |
| EditInventory.Edited | app/src/main/java/com/example/easyinventory/ui/EditInventoryScreen.kt:245-250 | the saved record keeps the loaded id and owner and carries the four edited fields |
| EditInventory.PrefilledFormAccepted | app/src/main/java/com/example/easyinventory/ui/EditInventoryScreen.kt:202-212 | a form left as loaded is accepted with the record's own quantity and price, when these are not negative |
| EditInventory.NegativeQuantityBlocksSave | app/src/main/java/com/example/easyinventory/ui/EditInventoryScreen.kt:202-206 | a record with a negative quantity cannot be saved as loaded |
| EditInventory.PhotoStageOf | app/src/main/java/com/example/easyinventory/ui/EditInventoryScreen.kt:218-242 | a chosen, readable image is put in storage unless storing its bytes fails; it becomes the new photo exactly when its URL is also obtained; an unreadable image silently keeps the old photo; the old photo is deleted only when replaced and non-empty; which failure stops the save |
| EditInventory.PhotoWrites | app/src/main/java/com/example/easyinventory/ui/EditInventoryScreen.kt:222-242 | the photo stage writes first the image it stored, if any, and last the deletion of the old photo, exactly when that is replaced; it writes nothing else and deletes no other blob |
| EditInventory.UrlFailureLeavesImage | app/src/main/java/com/example/easyinventory/ui/EditInventoryScreen.kt:231-233 | when the image is stored but its URL cannot be had, the save stops with that error, the record keeps the old photo and the stored image is left unused |
| EditInventory.FailedDeletionKeepsBothImages | app/src/main/java/com/example/easyinventory/ui/EditInventoryScreen.kt:239-242 | when deleting the replaced photo fails, the new image has already been stored and the save stops with the error |
| EditInventory.EditInventoryForm.constructor | app/src/main/java/com/example/easyinventory/ui/EditInventoryScreen.kt:42-49 | the form starts empty, with no record and no image |
| EditInventory.EditInventoryForm.Load | app/src/main/java/com/example/easyinventory/ui/EditInventoryScreen.kt:55-63 | the record is loaded exactly when the view model returns it; it then prefills the fields and the current photo |
| EditInventory.EditInventoryForm.OnImagePicked | app/src/main/java/com/example/easyinventory/ui/EditInventoryScreen.kt:68-71 | a gallery result replaces the pick and drops the capture |
| EditInventory.EditInventoryForm.OnCaptureStarted | app/src/main/java/com/example/easyinventory/ui/EditInventoryScreen.kt:100 | starting the camera sets the capture and keeps the gallery pick |
| EditInventory.EditInventoryForm.ShownImage | app/src/main/java/com/example/easyinventory/ui/EditInventoryScreen.kt:163-190 | the capture, else the gallery pick, else the current photo when it is not empty, else nothing |
| EditInventory.EditInventoryForm.ReplacePhoto | app/src/main/java/com/example/easyinventory/ui/EditInventoryScreen.kt:218-242 | the store's blobs and write log change exactly as the photo stage says; documents do not change |
| EditInventory.EditInventoryForm.Save | app/src/main/java/com/example/easyinventory/ui/EditInventoryScreen.kt:216-264 | a photo failure or a missing record stops with "Error: …" after the photo writes; otherwise the edited record is passed to the update, and the screen closes exactly when it was written |
| EditInventory.EditInventoryForm.Submit | app/src/main/java/com/example/easyinventory/ui/EditInventoryScreen.kt:195-264 | the Save button: a refused form changes nothing; an accepted one runs the photo stage and the update, and ends not uploading |

## Left out

- Firebase timing and delivery: every remote call is one atomic step. Its outcome is a parameter. A snapshot listener's later re-deliveries and the interleaving of coroutines and callbacks are not modelled.
- `Repository.InventoryViewModel.LoadInventoryItems`: the order of the records is deliberately left open. The service returns such a query in document-id order, and the model does not rely on it: the list's properties are proved for any order.
- New document ids, upload URLs and the signed-in user are given, not generated.
- The `users` collection's contents are not kept. `Auth` records the calls made to it (queries, writes) in a ghost log and takes each call's result as a parameter.
- `Repository.Store.PutBlob` always succeeds. When storing the bytes fails, the callers see an `UploadFailed` outcome and nothing is stored. When the bytes are stored but the download URL request fails (`UrlFailed`), the image is put in storage and left there unused.
- Signing in and out is not connected to the inventory: `Auth.AuthViewModel` does not read or write `Repository.Store.currentUser`. Which user the inventory view model sees is the store's own field, set when the store is made.
- Floating point: prices are exact `real`s with no NaN and no rounding. The result of `toDoubleOrNull` and of `Double.toString` are inputs. The price total (`price * quantity` summed) and the `%.2f` texts are not computed. The page records which price each cell shows, not its text.
- Case folding is ASCII only. Unicode digits in `toIntOrNull` are not accepted. Strings are sequences of characters, not UTF-16 units.
- `RegisterScreen.OnRegisterClick`: the platform e-mail address pattern is an input, the verdict of the pattern on the address.
- `AddInventory.AddInventoryForm.Submit` and `EditInventory.EditInventoryForm.Submit`: an exception from opening the image stream is not modelled. Only "readable or not" is.
- Toasts are returned as text. Navigation is a flag or a route name. Composables, dialogs, permissions, the camera and the gallery are not modelled. Neither are `DashboardScreen`, `InventoryDetailScreen`, `MainActivity` or the theme.
- The PDF: bitmap scaling, fonts, paint sizes, the timestamped file name and saving the file are not modelled. The date text is an input.
- `AuthViewModel.kt` logging and `Inventory.kt`'s Firestore annotations are not modelled.

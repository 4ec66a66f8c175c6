# CarBungalo dashboard: admin pages over the hosted backend

This project models the admin pages of the CarBungalo e-commerce dashboard that
read and write the hosted backend (an Appwrite database and file bucket):

- the wholesale-account approval screen: fetch, join profiles, approve and
  reject, filter, attachments;
- the voucher screen: load with defaults, a validated create/edit form with a
  normalised and unique code, delete;
- the subscriber list: paged fetch, selection, bulk delete, `mailto:` replies;
- the banner list, the banner editor and the new-banner form;
- the site-images editor and the general-data page;
- the greeting banner of the dashboard home.

The backend is the class `Store.Backend`. Each collection is a field holding a
sequence of documents in listing order, and the file bucket is a set of file
ids. Every SDK call may fail (`Store.Attempt`); new documents and files get
fresh ids. Each page is a class whose fields are the page's React state. Its
handlers are methods that change that state and the backend, and they return
the toast they show as a `Common.Notice` (`Quiet`, `Success`, `Failure`,
`Warning`). The pure parts are functions with lemmas about them:

- the user map built from the profiles;
- the tab and search filter;
- the attachment labels;
- the voucher form rules and code normalisation;
- `encodeURIComponent` and its percent-decoding partner;
- the mail links;
- the social-link hrefs;
- the greeting.

| file | module | source |
|---|---|---|
| common.dfy | `Common` | shared sequence, string and option helpers |
| store.dfy | `Store` | the backend collections and SDK calls |
| wholesale.dfy | `WholesaleRequests` | `WholesaleRequests.js` |
| vouchers.dfy | `EcommerceVouchers` | `EcommerceVouchers.js` |
| uri_component.dfy | `UriComponent` | `encodeURIComponent` as `SubscribersList.js` uses it |
| subscribers.dfy | `SubscribersList` | `SubscribersList.js` |
| image_slot.dfy | `ImageUploads` | the upload-then-delete step and drop zones shared by the banner and site-image editors |
| banners_list.dfy | `BannersList` | `BannersList.js` |
| banner_add.dfy | `BannerAdd` | `BannerAdd.js` |
| banner_edit.dfy | `BannerEdit` | `BannerEdit.js` |
| general_images_edit.dfy | `GeneralimagesEdit` | `GeneralimagesEdit.js` |
| general_images_list.dfy | `GeneralimagesList` | `GeneralimagesList.js` |
| section.dfy | `Section` | `DashboardEcommerce/Section.js` |

## Model

| member | source | states |
|---|---|---|
| Store.Backend.ListRequests | src/pages/Ecommerce/WholesaleRequests.js:87 | a successful listing with a limit returns the first `limit` requests in listing order |
| Store.Backend.ListUsersIn | src/pages/Ecommerce/WholesaleRequests.js:95-98 | the `Query.equal('userId', ids)` listing returns the first 100 profiles whose `userId` is one of the ids |
| Store.Backend.ListUsersWithUserId | src/pages/Ecommerce/WholesaleRequests.js:139 | the single-id query returns every profile with that `userId`, in order |
| Store.Backend.UpdateRequestStatus | src/pages/Ecommerce/WholesaleRequests.js:132-135 | a successful update writes status and reason to the request with that id, which existed; a failure changes nothing; ids stay unique |
| Store.Backend.UpdateUserApproval | src/pages/Ecommerce/WholesaleRequests.js:142 | a successful update sets the approval flag of the profile with that document id, which existed; a failure changes nothing |
| Store.Backend.FileViewUrl | src/pages/Ecommerce/WholesaleRequests.js:203 | `getFileView` either fails or gives the view URL of that file |
| Store.Backend.ListVouchers | src/pages/Ecommerce/EcommerceVouchers.js:60 | a listing without a limit returns the backend's default page: the first 25 vouchers |
| Store.Backend.CreateVoucher | src/pages/Ecommerce/EcommerceVouchers.js:158-164 | on success exactly one document with a fresh id and the given fields is appended; on failure nothing changes |
| Store.Backend.UpdateVoucher | src/pages/Ecommerce/EcommerceVouchers.js:150-155 | on success code, discount, limit and validity of the voucher with that id are overwritten and the rest kept; on failure nothing changes |
| Store.Backend.DeleteVoucher | src/pages/Ecommerce/EcommerceVouchers.js:96 | on success the voucher with that id, which existed, is gone and every other stays in order |
| Store.Backend.ListSubscribers | src/pages/Ecommerce/Subscribers/SubscribersList.js:41-44 | a page is the at most `limit` subscribers from position `offset`, and empty past the end |
| Store.Backend.DeleteSubscriber | src/pages/Ecommerce/Subscribers/SubscribersList.js:81-83 | on success the subscriber with that id, which existed, is gone and the rest kept in order |
| Store.Backend.ListBanners | src/pages/Ecommerce/Banner/BannersList.js:42-47 | a page is the at most `limit` banners after the cursor's banner (from the start with no cursor); an unknown cursor fails |
| Store.Backend.GetBanner | src/pages/Ecommerce/Banner/BannerEdit.js:28 | a found banner is a stored banner with the asked id |
| Store.Backend.CreateBanner | src/pages/Ecommerce/Banner/BannerAdd.js:36-42 | on success one banner with a fresh id and exactly the given title, subtitle and image id is appended |
| Store.Backend.UpdateBanner | src/pages/Ecommerce/Banner/BannerEdit.js:58-59 | on success the banner with that id gets exactly the given title, subtitle and image id |
| Store.Backend.DeleteBanner | src/pages/Ecommerce/Banner/BannersList.js:81 | on success the banner with that id, which existed, is gone and the rest kept in order; banner ids stay unique and non-empty |
| Store.Backend.GetGeneralImages | src/pages/Ecommerce/GenralImages/GeneralimagesEdit.js:48 | a found document is a stored site-images document with the asked id |
| Store.Backend.UpdateHeroSection | src/pages/Ecommerce/GenralImages/GeneralimagesEdit.js:127 | on success the four slot ids of the `heroSection` document with that id are overwritten |
| Store.Backend.ListGeneralData | src/pages/Ecommerce/GenralImages/GeneralimagesList.js:30 | a listing without a limit returns the first 25 general-data documents |
| Store.Backend.CreateGeneralData | src/pages/Ecommerce/GenralImages/GeneralimagesList.js:44 | on success the created document has the given fields and a fresh id, and is appended |
| Store.Backend.CreateFile | src/pages/Ecommerce/Banner/BannerAdd.js:33 | an upload adds exactly one new, non-empty file id to the bucket |
| Store.Backend.DeleteFile | src/pages/Ecommerce/Banner/BannersList.js:79 | a deletion succeeds only for a present file and removes exactly it |
| WholesaleRequests.WholesalePage.constructor | src/pages/Ecommerce/WholesaleRequests.js:35-46 | the initial page state: no requests, empty map, tab "1", dialogs closed |
| WholesaleRequests.UserIdsOf | src/pages/Ecommerce/WholesaleRequests.js:92 | one `userId` per fetched request, position by position |
| WholesaleRequests.LastWithUserId | src/pages/Ecommerce/WholesaleRequests.js:103-105 | the profile stored under a `userId` is one with that `userId` after which no profile has it; none exactly when no profile has it |
| WholesaleRequests.BuildUsersMap | src/pages/Ecommerce/WholesaleRequests.js:102-113 | the two `forEach` passes build exactly `UsersMap`: the last profile for each `userId`, and a placeholder for each requested `userId` without one |
| WholesaleRequests.FetchedUsersMapKeys | src/pages/Ecommerce/WholesaleRequests.js:92-113 | after a fetch the map's keys are exactly the `userId`s of the fetched requests |
| WholesaleRequests.JoinedEntryCases | src/pages/Ecommerce/WholesaleRequests.js:107-113 | every requested `userId` has an entry: "Unknown" with an empty email when no profile carries it, otherwise the last such profile |
| WholesaleRequests.WholesalePage.Fetch | src/pages/Ecommerce/WholesaleRequests.js:83-122 | requests are stored as soon as they arrive; the user map only when the profile listing also succeeds; any failure gives the error toast |
| WholesaleRequests.MirrorByDocumentId | src/pages/Ecommerce/WholesaleRequests.js:138-142 | updating the first listed profile by its document id is the same as setting the flag on the first profile with the `userId` |
| WholesaleRequests.MirrorSetsFlag | src/pages/Ecommerce/WholesaleRequests.js:138-145 | only the first profile with the `userId` changes, and only its flag; with none, no profile changes |
| WholesaleRequests.TransitionIdempotent | src/pages/Ecommerce/WholesaleRequests.js:129-188 | deciding the same request the same way twice leaves requests and profiles as deciding once |
| WholesaleRequests.ApplyDecision | src/pages/Ecommerce/WholesaleRequests.js:132-145 | the request write comes first; only after it does the applicant's first profile get the flag; a failed first write changes no profile |
| WholesaleRequests.WholesalePage.HandleApprove | src/pages/Ecommerce/WholesaleRequests.js:129-153 | on success the request is approved with an empty reason, the profile mirrored to `true` and the page refetched, and the refetch's own toast is returned beside the approve toast ("Failed to fetch wholesale requests." exactly when the refetch failed, :118); on failure page and profiles are unchanged and there is no refetch |
| WholesaleRequests.WholesalePage.HandleReject | src/pages/Ecommerce/WholesaleRequests.js:156-159 | remembers the request and opens the reason dialog |
| WholesaleRequests.WholesalePage.CancelReject | src/pages/Ecommerce/WholesaleRequests.js:540 | closes the reason dialog; the chosen request and the typed reason stay |
| WholesaleRequests.WholesalePage.ConfirmReject | src/pages/Ecommerce/WholesaleRequests.js:162-188 | on success the selected request is rejected with the entered reason, the profile mirrored to `false`, the dialog closed, the reason cleared and the page refetched, and the refetch's own toast is returned beside the reject toast (:118, :183); on failure nothing on the page changes and there is no refetch |
| WholesaleRequests.AttachmentLabelsDistinct | src/pages/Ecommerce/WholesaleRequests.js:204-207 | no two attachment positions get the same label |
| WholesaleRequests.ThirdAttachmentLabel | src/pages/Ecommerce/WholesaleRequests.js:204-212 | the third attachment is "Other Document 1", or "Attachment 3" when its URL fails |
| WholesaleRequests.ParseAttachments | src/pages/Ecommerce/WholesaleRequests.js:197-217 | no rows for an absent list; otherwise one row per file id, in order, with its positional label and view URL, or the fallback label and no URL |
| WholesaleRequests.WholesalePage.HandleViewDetails | src/pages/Ecommerce/WholesaleRequests.js:191-231 | opens the details dialog on the request and holds its resolved attachments |
| WholesaleRequests.WholesalePage.CloseView | src/pages/Ecommerce/WholesaleRequests.js:685 | closes the details dialog; the request and its attachments stay |
| WholesaleRequests.FilteredMembership | src/pages/Ecommerce/WholesaleRequests.js:234-267 | a request is shown if and only if it is listed, its tab shows its status, and a non-empty search term occurs in its applicant's non-empty name, ignoring case |
| WholesaleRequests.ByTabKeepsOrder | src/pages/Ecommerce/WholesaleRequests.js:237-252 | the tab filter keeps the listing order: it distributes over concatenation |
| WholesaleRequests.FilteredKeepsOrder | src/pages/Ecommerce/WholesaleRequests.js:234-267 | the whole filter distributes over concatenation, so shown rows keep their order |
| WholesaleRequests.SearchIgnoresCase | src/pages/Ecommerce/WholesaleRequests.js:255-265 | two search terms equal up to letter case show the same rows |
| WholesaleRequests.ActionsFor | src/pages/Ecommerce/WholesaleRequests.js:340-391 | details always; approve if and only if pending; undo if and only if rejected; reject if and only if pending or approved; every decision moves to another status |
| EcommerceVouchers.VouchersPage.constructor | src/pages/Ecommerce/EcommerceVouchers.js:38-44 | the initial state: no vouchers, dialogs closed, not editing, the empty form |
| EcommerceVouchers.LoadVouchers | src/pages/Ecommerce/EcommerceVouchers.js:61-66 | one loaded voucher per document, position by position |
| EcommerceVouchers.LoadDefaults | src/pages/Ecommerce/EcommerceVouchers.js:61-66 | loading keeps id, code and discount; a counter reads 0 exactly when it is missing or 0; a voucher shows as valid exactly when its flag is missing or `true`, so an explicit `null` shows as not valid (:204) |
| EcommerceVouchers.VouchersPage.FetchVouchers | src/pages/Ecommerce/EcommerceVouchers.js:57-74 | the list becomes the loaded first page; on failure the list stays and the error is set |
| EcommerceVouchers.VouchersPage.ToggleModal | src/pages/Ecommerce/EcommerceVouchers.js:47-54 | flips the dialog; closing it clears the selection, leaves edit mode and resets the form and its errors; opening it changes nothing else; keeps the closed form equal to the selection's initial values |
| EcommerceVouchers.VouchersPage.AddVoucher | src/pages/Ecommerce/EcommerceVouchers.js:263-266 | leaves edit mode and toggles the dialog; opening keeps any leftover selection, so the form shows that voucher's values |
| EcommerceVouchers.VouchersPage.HandleEditVoucher | src/pages/Ecommerce/EcommerceVouchers.js:81-85 | opens the dialog in edit mode on the voucher, with its values in the form |
| EcommerceVouchers.VouchersPage.HandleDeleteVoucher | src/pages/Ecommerce/EcommerceVouchers.js:88-91 | remembers the voucher and opens the confirmation; a new selection reinitialises the form to that voucher's values (`enableReinitialize`, :108-115) |
| EcommerceVouchers.VouchersPage.CancelDelete | src/pages/Ecommerce/EcommerceVouchers.js:375 | closes the confirmation; the selection and form stay |
| EcommerceVouchers.VouchersPage.HandleChange | src/pages/Ecommerce/EcommerceVouchers.js:312-348 | a field change in the open dialog sets the form's values and drops the uniqueness error |
| EcommerceVouchers.PrefilledAddIsDuplicate | src/pages/Ecommerce/EcommerceVouchers.js:88-91 | a form pre-filled from a still-loaded voucher and submitted unchanged in add mode is refused as a duplicate |
| EcommerceVouchers.PrefilledAddRecreates | src/pages/Ecommerce/EcommerceVouchers.js:94-104 | once that voucher is gone from the list, the same unchanged form creates it again with its code, discount and limit |
| EcommerceVouchers.VouchersPage.ConfirmDelete | src/pages/Ecommerce/EcommerceVouchers.js:94-104 | on success exactly the selected voucher leaves the store, the confirmation closes and the list is either the refetched first page or unchanged with the fetch error set; on failure store, list, error and dialog are unchanged |
| EcommerceVouchers.NormalizedCodeShape | src/pages/Ecommerce/EcommerceVouchers.js:130 | a saved code has no surrounding white space and no lower-case ASCII letter |
| EcommerceVouchers.NormalizeCodeIdempotent | src/pages/Ecommerce/EcommerceVouchers.js:130 | normalising a saved code changes nothing |
| EcommerceVouchers.LengthRuleBeforeTrim | src/pages/Ecommerce/EcommerceVouchers.js:116-130 | the three-character rule is checked before trimming: two spaces and one visible character pass and save as one character |
| EcommerceVouchers.CaseVariantIsDuplicate | src/pages/Ecommerce/EcommerceVouchers.js:133-137 | a loaded voucher whose code differs only in case is a duplicate, unless it is the voucher being edited |
| EcommerceVouchers.AcceptedVoucherIsValid | src/pages/Ecommerce/EcommerceVouchers.js:145-146 | an accepted form always saves a positive limit, the entered one when positive, so the saved voucher is valid |
| EcommerceVouchers.CreatedLoadsBack | src/pages/Ecommerce/EcommerceVouchers.js:158-164 | a created voucher loads back with the normalised code, the entered discount, count 0, the saved limit and valid |
| EcommerceVouchers.UpdateKeepsCounts | src/pages/Ecommerce/EcommerceVouchers.js:150-155 | an edit never changes any voucher's id or usage count |
| EcommerceVouchers.PlanSubmit | src/pages/Ecommerce/EcommerceVouchers.js:116-146 | rejected if and only if validation fails; duplicate if and only if valid and another loaded code matches; otherwise saved with the normalised code, the defaulted limit and `valid` true |
| EcommerceVouchers.VouchersPage.Save | src/pages/Ecommerce/EcommerceVouchers.js:148-166 | edit mode updates the edited voucher; otherwise one voucher with a fresh id and count 0 is appended; a failure changes nothing |
| EcommerceVouchers.VouchersPage.Submit | src/pages/Ecommerce/EcommerceVouchers.js:128-173 | no write for a rejected or duplicate form, and a duplicate sets the code error; a save updates or creates as planned; success closes the dialog, resets the form and refetches (the first page, or the old list with the fetch error); otherwise dialog, selection, mode, form and list stay |
| EcommerceVouchers.VouchersPage.CloseAfterSave | src/pages/Ecommerce/EcommerceVouchers.js:167-168 | after a save the list is refetched (the first page, or the old list with the fetch error set) and the open dialog closes through `toggleModal`, resetting selection, mode, form and errors |
| UriComponent.Utf8 | src/pages/Ecommerce/Subscribers/SubscribersList.js:125-129 | a character encodes to one to four bytes, a single byte exactly for ASCII, where it is the code itself |
| UriComponent.HexValue | src/pages/Ecommerce/Subscribers/SubscribersList.js:125-129 | a digit value exists exactly for hexadecimal digits and is below 16 |
| UriComponent.Encode | src/pages/Ecommerce/Subscribers/SubscribersList.js:125-129 | `encodeURIComponent` emits only unreserved characters, `%` and hexadecimal digits |
| UriComponent.EncodeKeepsUnreserved | src/pages/Ecommerce/Subscribers/SubscribersList.js:140-144 | a string of unreserved characters is encoded as itself |
| UriComponent.EncodedHasNoDelimiters | src/pages/Ecommerce/Subscribers/SubscribersList.js:125-129 | an encoded string holds no `&`, `?`, `=` or `,` |
| UriComponent.DecodeEncode | src/pages/Ecommerce/Subscribers/SubscribersList.js:125-129 | percent-decoding an encoded string gives back its UTF-8 bytes |
| SubscribersList.SubscribersPage.constructor | src/pages/Ecommerce/Subscribers/SubscribersList.js:24-28 | the initial state: no rows, nothing selected, no dialog, no error |
| SubscribersList.Rows | src/pages/Ecommerce/Subscribers/SubscribersList.js:51-54 | one row per document, with its id and email, in order |
| SubscribersList.RowsConcat | src/pages/Ecommerce/Subscribers/SubscribersList.js:46-54 | mapping the concatenated pages is concatenating the mapped pages |
| SubscribersList.SubscribersPage.FetchAll | src/pages/Ecommerce/Subscribers/SubscribersList.js:33-62 | without a failure the rows are every stored subscriber in order, after `n / 100 + 1` requests; a failure empties the list and sets the error |
| SubscribersList.IdsOf | src/pages/Ecommerce/Subscribers/SubscribersList.js:163 | the row ids, position by position |
| SubscribersList.SubscribersPage.ToggleAll | src/pages/Ecommerce/Subscribers/SubscribersList.js:161-165 | checking selects every row id, so the header shows checked when there are rows; unchecking selects none |
| SubscribersList.SubscribersPage.ToggleRow | src/pages/Ecommerce/Subscribers/SubscribersList.js:174-182 | checking appends the id; unchecking drops every occurrence of it and keeps the other ids |
| SubscribersList.HeaderMeansAllSelected | src/pages/Ecommerce/Subscribers/SubscribersList.js:157-160 | with no repeated ids, a checked header means every row is selected |
| SubscribersList.SubscribersPage.HandleDeleteSelected | src/pages/Ecommerce/Subscribers/SubscribersList.js:68-71 | asks to delete the selection |
| SubscribersList.SubscribersPage.HandleDeleteAll | src/pages/Ecommerce/Subscribers/SubscribersList.js:73-76 | asks to delete every row |
| SubscribersList.SubscribersPage.HandleDeleteRow | src/pages/Ecommerce/Subscribers/SubscribersList.js:208-212 | a row's delete button makes that row the whole selection and asks to delete the selection |
| SubscribersList.SubscribersPage.CancelDelete | src/pages/Ecommerce/Subscribers/SubscribersList.js:109-112 | closes the dialog and clears the delete type |
| SubscribersList.WithoutAllMembership | src/pages/Ecommerce/Subscribers/SubscribersList.js:81-84 | deleting a list of ids keeps exactly the documents whose id is not listed |
| SubscribersList.SubscribersPage.DeleteEach | src/pages/Ecommerce/Subscribers/SubscribersList.js:81-84 | all deletions done means every id deleted; a failure leaves a prefix of them deleted |
| SubscribersList.Unselected | src/pages/Ecommerce/Subscribers/SubscribersList.js:85-89 | the rows kept are exactly those whose id is not selected |
| SubscribersList.UnselectedKeepsOrder | src/pages/Ecommerce/Subscribers/SubscribersList.js:85-89 | removing rows keeps the others in order |
| SubscribersList.SubscribersPage.ConfirmDelete | src/pages/Ecommerce/Subscribers/SubscribersList.js:78-107 | deletes the selected ids (or every row), then drops them from the list and clears the selection; a failure keeps list, selection and dialog; an unknown type does nothing but close the dialog |
| SubscribersList.SelectedEmails | src/pages/Ecommerce/Subscribers/SubscribersList.js:115-118 | the result is the rows filtered by selection, mapped to their e-mails and filtered by presence, in list order; so an e-mail is collected if and only if it is non-empty and belongs to a selected row |
| SubscribersList.FieldsHaveNoAmpersand | src/pages/Ecommerce/Subscribers/SubscribersList.js:125-129 | the encoded subject and body fields hold no `&` |
| SubscribersList.ReplyAllShape | src/pages/Ecommerce/Subscribers/SubscribersList.js:114-132 | no link if and only if no selected email; else a `bcc` link whose value has no `&` or `?` and decodes to the comma-joined emails |
| SubscribersList.SubscribersPage.ReplyAll | src/pages/Ecommerce/Subscribers/SubscribersList.js:114-132 | warns exactly when there is no link to open |
| SubscribersList.ReplyShape | src/pages/Ecommerce/Subscribers/SubscribersList.js:134-147 | no link if and only if the email is empty; else the recipient has no `?` and decodes to the email |
| SubscribersList.SubscribersPage.Reply | src/pages/Ecommerce/Subscribers/SubscribersList.js:134-147 | warns exactly for an empty email, else gives the link |
| ImageUploads.ReplaceImage | src/pages/Ecommerce/Banner/BannerEdit.js:51-56 | no new file keeps the id and the bucket; otherwise the upload comes first and its fresh id replaces the old file; a failed deletion leaves the upload behind |
| ImageUploads.ReplacedMembership | src/pages/Ecommerce/Banner/BannerEdit.js:52-56 | after a replacement the bucket holds the upload and the untouched files, and not the previous file |
| ImageUploads.OnDrop | src/pages/Ecommerce/Banner/BannerAdd.js:56-61 | the first accepted file is selected and the errors cleared; an empty drop changes nothing |
| ImageUploads.OnDropRejected | src/pages/Ecommerce/Banner/BannerAdd.js:62-65 | no file is selected and each rejected file shows its reasons joined by ", " |
| ImageUploads.DropAfterRejection | src/pages/Ecommerce/Banner/BannerAdd.js:56-65 | an accepted drop after a rejection selects the file and leaves no error |
| ImageUploads.SingleReasonMessage | src/pages/Ecommerce/Banner/BannerAdd.js:62-65 | a file rejected for one reason shows that reason alone |
| BannersList.BannersPage.constructor | src/pages/Ecommerce/Banner/BannersList.js:26-31 | the initial state: no banners, no cursor, more to fetch, no dialog |
| BannersList.ImageUrl | src/pages/Ecommerce/Banner/BannersList.js:92-96 | no URL exactly for an empty image id, else its preview |
| BannersList.CursorPosition | src/pages/Ecommerce/Banner/BannersList.js:42-55 | with unique ids, the cursor set to the last listed banner makes the next page continue right after it |
| BannersList.PageStep | src/pages/Ecommerce/Banner/BannersList.js:50-58 | appending a page extends the listed prefix; a full page leaves room for more, a short one reaches the end |
| BannersList.BannersPage.FetchBanners | src/pages/Ecommerce/Banner/BannersList.js:35-68 | nothing once there is no more; else the page after the cursor is appended, a short page ends the paging and a non-empty one moves the cursor to its last banner |
| BannersList.BannersPage.LoadAll | src/pages/Ecommerce/Banner/BannersList.js:35-68 | the effect chain from mount lists every stored banner in order; after a failure (the only failure notice is the fetch toast) the list is a prefix of the store, `hasMore` stays set and the cursor stays at the last listed banner |
| BannersList.BannersPage.LoadMore | src/pages/Ecommerce/Banner/BannersList.js:179 | "Load More" changes no state, so no fetch runs |
| BannersList.BannersPage.OnClickDelete | src/pages/Ecommerce/Banner/BannersList.js:70-73 | remembers the banner and opens the confirmation |
| BannersList.BannersPage.HandleDeleteBanner | src/pages/Ecommerce/Banner/BannersList.js:75-90 | without a chosen banner nothing changes, the dialog included; otherwise its file (if any) and then its document are deleted and exactly that id leaves the list; a failure keeps list, documents and dialog, and the bucket is either unchanged or short of exactly the banner's image (when the document delete fails after the file delete) |
| BannersList.BannersPage.CancelDelete | src/pages/Ecommerce/Banner/BannersList.js:145 | closes the confirmation; the chosen banner stays |
| BannerAdd.BannerAddPage.constructor | src/pages/Ecommerce/Banner/BannerAdd.js:17-21 | an empty form and no file selected |
| BannerAdd.BannerAddPage.Submit | src/pages/Ecommerce/Banner/BannerAdd.js:26-50 | without an image nothing is written; else one upload and one new banner with the form's title and subtitle and the upload's id; a failed creation adds no banner and does not navigate, and the bucket is either unchanged (the upload failed) or holds exactly one new, orphaned upload (the creation failed) |
| BannerAdd.BannerAddPage.HandleChange | src/pages/Ecommerce/Banner/BannerAdd.js:89-108 | a field change sets the form's values |
| BannerAdd.BannerAddPage.HandleDrop | src/pages/Ecommerce/Banner/BannerAdd.js:56-61 | the drop zone state follows `onDrop` |
| BannerAdd.BannerAddPage.HandleDropRejected | src/pages/Ecommerce/Banner/BannerAdd.js:62-65 | the drop zone state follows `onDropRejected` |
| BannerEdit.BannerEditPage.constructor | src/pages/Ecommerce/Banner/BannerEdit.js:18-22 | nothing loaded, no file, no preview |
| BannerEdit.BannerEditPage.Load | src/pages/Ecommerce/Banner/BannerEdit.js:24-40 | the route's banner fills the form and its image's preview is shown; a failure keeps everything |
| BannerEdit.BannerEditPage.Submit | src/pages/Ecommerce/Banner/BannerEdit.js:49-67 | the banner gets exactly the form's title and subtitle and the kept or uploaded image id; an old file is deleted only for a new upload; a failure leaves the banners unchanged and does not navigate |
| BannerEdit.BannerEditPage.HandleChange | src/pages/Ecommerce/Banner/BannerEdit.js:120-139 | a field change sets the form's values |
| BannerEdit.BannerEditPage.HandleDrop | src/pages/Ecommerce/Banner/BannerEdit.js:73-79 | selects the file and previews it locally |
| BannerEdit.BannerEditPage.HandleDropRejected | src/pages/Ecommerce/Banner/BannerEdit.js:80-83 | clears the selection and shows the reasons, keeping the preview |
| GeneralimagesEdit.GeneralImagesEditPage.constructor | src/pages/Ecommerce/GenralImages/GeneralimagesEdit.js:30-42 | nothing loaded, selected or previewed |
| GeneralimagesEdit.LoadedPreview | src/pages/Ecommerce/GenralImages/GeneralimagesEdit.js:53-71 | a slot with a file shows its preview; an empty slot keeps what was shown |
| GeneralimagesEdit.GeneralImagesEditPage.Load | src/pages/Ecommerce/GenralImages/GeneralimagesEdit.js:44-80 | the route's `Generalimages` document is held and each slot's preview set as `LoadedPreview` says; a failure keeps everything |
| GeneralimagesEdit.Current | src/pages/Ecommerce/GenralImages/GeneralimagesEdit.js:88-91 | the four slot ids in the order login, wholesale, contact, policy |
| GeneralimagesEdit.GeneralImagesEditPage.ReplaceSlots | src/pages/Ecommerce/GenralImages/GeneralimagesEdit.js:95-117 | each slot with a new file gets a new id and its old file replaced; the others keep their ids; on a failure the bucket is the result of the slots before the failing one, plus at most that slot's own upload (`StoppedAt`) |
| GeneralimagesEdit.OtherFilesUntouched | src/pages/Ecommerce/GenralImages/GeneralimagesEdit.js:95-117 | a file that is neither the old nor the new file of a replaced slot keeps its presence in the bucket |
| GeneralimagesEdit.NoUploadNoChange | src/pages/Ecommerce/GenralImages/GeneralimagesEdit.js:95-117 | with no new file at all the bucket is untouched |
| GeneralimagesEdit.SlotsUpdateKeepsOtherFields | src/pages/Ecommerce/GenralImages/GeneralimagesEdit.js:119-127 | the update changes only the four slot fields of the document with the id, never its `imageId` |
| GeneralimagesEdit.GeneralImagesEditPage.Submit | src/pages/Ecommerce/GenralImages/GeneralimagesEdit.js:85-135 | the slots are replaced, then the four ids and nothing else are written to `heroSection`; without loaded data nothing is written and the page does not navigate; on failure it does not navigate either, `heroSection` is unchanged and the bucket has stopped part-way as in `ReplaceSlots`, with the slot ids reached returned |
| GeneralimagesEdit.GeneralImagesEditPage.HandleDrop | src/pages/Ecommerce/GenralImages/GeneralimagesEdit.js:141-147 | the main zone records a selection and a local preview; the zone is never rendered, so this cannot fire |
| GeneralimagesEdit.GeneralImagesEditPage.HandleDropRejected | src/pages/Ecommerce/GenralImages/GeneralimagesEdit.js:148-152 | the main zone drops its selection and shows the reasons; unreachable like `HandleDrop` |
| GeneralimagesEdit.GeneralImagesEditPage.HandleLoginDrop | src/pages/Ecommerce/GenralImages/GeneralimagesEdit.js:158-163 | the login slot selects the first accepted file and previews it; an empty drop changes nothing |
| GeneralimagesEdit.GeneralImagesEditPage.HandleWholesaleDrop | src/pages/Ecommerce/GenralImages/GeneralimagesEdit.js:169-174 | the same for the wholesale slot |
| GeneralimagesEdit.GeneralImagesEditPage.HandleContactDrop | src/pages/Ecommerce/GenralImages/GeneralimagesEdit.js:180-185 | the same for the contact slot |
| GeneralimagesEdit.GeneralImagesEditPage.HandlePolicyDrop | src/pages/Ecommerce/GenralImages/GeneralimagesEdit.js:191-196 | the same for the policy slot |
| GeneralimagesList.GeneralImagesListPage.constructor | src/pages/Ecommerce/GenralImages/GeneralimagesList.js:23-24 | nothing shown, loading |
| GeneralimagesList.GeneralImagesListPage.FetchHeroSection | src/pages/Ecommerce/GenralImages/GeneralimagesList.js:26-58 | the first listed document is shown; an empty collection gets exactly the default document, shown with a success toast; an existing collection is never written; a failure shows nothing new and writes nothing |
| GeneralimagesList.ImageUrl | src/pages/Ecommerce/GenralImages/GeneralimagesList.js:61-65 | no URL exactly for an empty id, else its download URL |
| GeneralimagesList.SocialHrefShape | src/pages/Ecommerce/GenralImages/GeneralimagesList.js:151-155 | an href always starts with "http"; it is the link itself if and only if the link starts with "http", else the link behind `https://` |
| GeneralimagesList.SocialHrefIdempotent | src/pages/Ecommerce/GenralImages/GeneralimagesList.js:151-155 | normalising an href again changes nothing |
| GeneralimagesList.SchemeIsNotChecked | src/pages/Ecommerce/GenralImages/GeneralimagesList.js:151-155 | any link that starts with the letters "http", scheme or not, is kept as written |
| GeneralimagesList.SocialCell | src/pages/Ecommerce/GenralImages/GeneralimagesList.js:149-163 | a placeholder exactly for an empty link; else the link's text pointing at an http href |
| GeneralimagesList.Cells | src/pages/Ecommerce/GenralImages/GeneralimagesList.js:130-237 | six rows: logo image or placeholder, the four social cells, terms markup or placeholder |
| GeneralimagesList.Render | src/pages/Ecommerce/GenralImages/GeneralimagesList.js:106-123 | the loader while loading, "no data" exactly without a document, else the edit link to the document and its cells |
| GeneralimagesList.LinksShownAsStored | src/pages/Ecommerce/GenralImages/GeneralimagesList.js:149-237 | a document whose links all start with "http" shows each link unchanged |
| GeneralimagesList.DefaultsShownAsStored | src/pages/Ecommerce/GenralImages/GeneralimagesList.js:35-42 | the created default document shows no logo, its four links unchanged and its terms |
| Section.BeforeAt | src/pages/DashboardEcommerce/Section.js:12 | `split('@')[0]` is the longest prefix without '@', followed by '@' when shorter than the email |
| Section.BeforeAtOfAddress | src/pages/DashboardEcommerce/Section.js:12 | the local part of `local@domain` is `local`, whatever the domain holds |
| Section.DisplayName | src/pages/DashboardEcommerce/Section.js:10-14 | never empty; the name when set; otherwise the text before the email's first '@' when that is non-empty; "User" on a failed fetch, with neither name nor email, or when that text is empty |
| Section.EmailLocalPartUsed | src/pages/DashboardEcommerce/Section.js:12 | an unnamed account is called by its non-empty local part |
| Section.AddressWithoutAtUsedWhole | src/pages/DashboardEcommerce/Section.js:12 | an unnamed account whose address has no '@' is called by the whole address |
| Section.EmptyLocalPartFallsBack | src/pages/DashboardEcommerce/Section.js:12 | an unnamed account whose email starts with '@' is called "User" |
| Section.Period | src/pages/DashboardEcommerce/Section.js:17-18 | "Morning" if and only if before 12, "Afternoon" if and only if 12 to 17, "Evening" if and only if 18 or later |
| Section.GreetingDetermines | src/pages/DashboardEcommerce/Section.js:19 | equal greetings have the same period and the same name |
| Section.GreetingFrame | src/pages/DashboardEcommerce/Section.js:19 | a greeting starts with "Good " and ends with the name and "!" |

## Left out

- The JSX markup, styling, breadcrumbs, loading animations and toast rendering are not modelled. Toasts are the returned `Notice`, and navigation is the page's `navigatedTo` field.
- The `loading`/`isLoading` flags are only modelled where they change what is shown (the general-data page). Elsewhere they only drive spinners.
- React effect scheduling, re-renders and races between overlapping requests are not modelled. Each handler runs to completion before the next one starts, and an effect that re-runs on a state change is written as a loop (`BannersList.BannersPage.LoadAll`) or a call.
- `Promise.all` deletions are not concurrent here: `SubscribersList.SubscribersPage.DeleteEach` issues them in order and stops at the first failure. In the source, deletions after a failed one may still land, so on failure the model proves only that a prefix of the ids was deleted.
- The SDK's own behaviour is not part of this model: network, permissions and quotas are the nondeterministic `Store.Attempt`, and fresh ids come from `Store.NewId`. The backend could, in principle, reuse a deleted id; the model does not exclude that.
- `Store.Backend.ListVouchers` and `Store.Backend.ListGeneralData` return the backend's default page of 25. The source asks for no limit, so later documents are never loaded.
- `WholesaleRequests.WholesalePage.Fetch`: only the first 100 requests and the first 100 matching profiles are fetched, as in the source. Longer collections are silently cut.
- `null` and `undefined` are merged into `Option.None`, except for a voucher's `valid` flag, where the page tells them apart (`Store.BoolAttr`). A missing form field is `None`. The empty string stands for an unset image slot or link, which is how the source's truthiness checks read them.
- `EcommerceVouchers.PlanSubmit`: the discount is an integer. `parseFloat` and fractional discounts are not modelled, and Yup's `integer` rule on the limit is implied by the type.
- `EcommerceVouchers.FormAccepted`: code length is counted in Unicode scalar values, not UTF-16 code units.
- `Common.ToUpper` and `Common.ToLower` map ASCII letters only. JavaScript's full Unicode case mapping is not modelled, and neither are the Unicode spaces beyond those `Common.IsSpace` lists.
- `EcommerceVouchers.VouchersPage.Submit` requires the dialog to be open, because the form is rendered only inside it.
- `GeneralimagesEdit.GeneralImagesEditPage.Submit`: the page calls `useFormik` with no `initialValues`, so the form's values are `undefined`. Whether a submit then reaches `onSubmit` depends on the Formik version. The model assumes the submit handler runs, with the loaded document.
- `EcommerceVouchers.VouchersPage.ConfirmDelete` and `EcommerceVouchers.VouchersPage.Submit` return only their own toast; the refetch's "Failed to fetch vouchers" toast shows only as the page error it sets.
- The drop zones' MIME-type and 5 MB checks are react-dropzone internals. They only decide whether a file arrives as accepted or rejected, which the handlers take as input.
- `URL.createObjectURL` is `Href.ObjectUrl(name)`. The URLs the SDK builds are `FileView`, `FilePreview` and `FileDownload` of the file id.
- `window.location.href` is not written: `ReplyAll` and `Reply` return the link the page would open.
- `UriComponent.Encode` works on Unicode scalar values. JavaScript's `URIError` for a lone surrogate cannot arise here.
- `Section.DisplayName`: the account fetch is its `Option<Account>` argument. `Section.Period` and `Section.Greeting` take the hour of `new Date().getHours()` as a parameter. The "Add Product" navigation button is UI.
- The Appwrite client setup (`src/appwrite/config.js`) and the service wrappers are not part of this model.

The model follows the code as written, including these quirks of it:

- The third attachment is labelled "Other Document 1". The numbering of "other" documents starts at 1 from index 2; see `WholesaleRequests.ThirdAttachmentLabel`.
- The site-images editor reads the `Generalimages` collection but writes the `heroSection` collection under the same id (`GeneralimagesEdit.GeneralImagesEditPage.Submit`). The model keeps the two collections apart.
- The site-images editor gives its form no initial values (`GeneralimagesEdit.GeneralImagesEditPage.Submit`; see "## Left out").
- The site-images editor sets up a main drop zone but never renders it, so its handlers cannot fire (`GeneralimagesEdit.GeneralImagesEditPage.HandleDrop`).
- Cancelling the reject dialog keeps the typed reason, which reappears the next time the dialog opens, for any request (`WholesaleRequests.WholesalePage.CancelReject`).
- The banner editor previews `banner.imageId` without checking that it is non-empty (`BannerEdit.BannerEditPage.Load`).
- "Load More" sets the cursor to its own value and so fetches nothing (`BannersList.BannersPage.LoadMore`).
- The voucher duplicate check upper-cases the stored codes but does not trim them (`EcommerceVouchers.IsDuplicate`).
- The length rule runs before trimming (`EcommerceVouchers.LengthRuleBeforeTrim`).
- Neither deleting nor cancelling a deletion clears the selected voucher, and "Add Voucher" does not clear it either. The add dialog then opens pre-filled with that voucher's values. Submitted unchanged it is refused as a duplicate, or, after a confirmed deletion, creates the voucher again (`EcommerceVouchers.PrefilledAddIsDuplicate`, `EcommerceVouchers.PrefilledAddRecreates`).
- A social link that merely begins with the letters "http" gets no scheme (`GeneralimagesList.SchemeIsNotChecked`).

/**
  The banner editor: the banner named by the route is loaded into the form;
  on submit its image is replaced only when a new file was chosen (upload
  first, then delete the old file if it had one) and the banner is updated
  with exactly its title, subtitle and image id.
 */
module BannerEdit {
  import opened Common
  import opened Store
  import opened ImageUploads
  import opened BannerAdd

  const FETCH_FAILED := "Failed to fetch banner data"
  const UPDATED := "Banner updated successfully"
  const UPDATE_FAILED := "Failed to update banner. Please try again."

  class BannerEditPage {
    const store: Backend
    const id: string
    var bannerData: Option<Banner>
    var form: BannerForm
    var drop: DropState
    var existingImageUrl: Option<Href>
    var navigatedTo: Option<string>

    constructor (store: Backend, id: string)
      ensures this.store == store && this.id == id
      ensures bannerData == None && form == BannerForm("", "") && drop == DropState(None, [])
      ensures existingImageUrl == None && navigatedTo == None
    {
      this.store, this.id := store, id;
      bannerData, form, drop := None, BannerForm("", ""), DropState(None, []);
      existingImageUrl, navigatedTo := None, None;
    }

    /** `fetchBanner`: the route's banner fills the form and shows its image's preview. */
    method Load() returns (notice: Notice)
      modifies this`bannerData, this`form, this`existingImageUrl
      ensures notice == Quiet || notice == Failure(FETCH_FAILED)
      ensures notice == Quiet ==> && bannerData.Some? && bannerData.value in store.banners && bannerData.value.id == id
                                  && form == BannerForm(bannerData.value.title, bannerData.value.subtitle)
                                  && existingImageUrl == Some(FilePreview(bannerData.value.imageId))
      ensures notice.Failure? ==> bannerData == old(bannerData) && form == old(form) && existingImageUrl == old(existingImageUrl)
    {
      var banner := store.GetBanner(id);
      if banner.None? {
        return Failure(FETCH_FAILED);
      }
      bannerData := banner;
      form := BannerForm(banner.value.title, banner.value.subtitle);
      existingImageUrl := Some(FilePreview(banner.value.imageId));
      return Quiet;
    }

    /**
      The form's `onSubmit`. Without a loaded banner it fails and writes
      nothing. Without a new file the saved image id is the loaded one and the
      bucket is untouched; with one, the upload's id is saved and the old file
      deleted when there was one. The update comes last, so when it fails the
      old file is already gone.
     */
    method Submit() returns (notice: Notice, imageId: string)
      requires store.Valid()
      modifies store`files, store`banners, this`navigatedTo
      ensures store.Valid()
      ensures !FormAccepted(form) ==> notice == Quiet
      ensures !FormAccepted(form) || bannerData.None? ==>
                store.files == old(store.files) && store.banners == old(store.banners) && navigatedTo == old(navigatedTo)
      ensures FormAccepted(form) && bannerData.None? ==> notice == Failure(UPDATE_FAILED)
      ensures notice.Success? ==>
                && notice == Success(UPDATED) && FormAccepted(form) && bannerData.Some?
                && store.banners == SetBanner(old(store.banners), id, form.title, form.subtitle, imageId)
                && navigatedTo == Some(BANNER_LIST)
      ensures notice.Success? && drop.selectedFile.None? ==>
                imageId == bannerData.value.imageId && store.files == old(store.files)
      ensures notice.Success? && drop.selectedFile.Some? ==>
                imageId != "" && imageId !in old(store.files)
                && store.files == Replaced(old(store.files), bannerData.value.imageId, imageId)
      ensures notice.Failure? ==> notice == Failure(UPDATE_FAILED) && store.banners == old(store.banners)
                                  && navigatedTo == old(navigatedTo)
      ensures notice.Failure? && bannerData.Some? ==>
                || store.files == old(store.files)
                || (imageId !in old(store.files)
                    && (store.files == old(store.files) + {imageId}
                        || store.files == Replaced(old(store.files), bannerData.value.imageId, imageId)))
      ensures FormAccepted(form) && bannerData.Some? ==> notice.Success? || notice.Failure?
    {
      imageId := "";
      if !FormAccepted(form) {
        return Quiet, imageId;
      }
      if bannerData.None? {
        return Failure(UPDATE_FAILED), imageId;
      }
      var ok;
      ok, imageId := ReplaceImage(store, bannerData.value.imageId, drop.selectedFile);
      if !ok {
        return Failure(UPDATE_FAILED), imageId;
      }
      ok := store.UpdateBanner(id, form.title, form.subtitle, imageId);
      if !ok {
        return Failure(UPDATE_FAILED), imageId;
      }
      navigatedTo := Some(BANNER_LIST);
      notice := Success(UPDATED);
    }

    /** A change to a field of the form. */
    method HandleChange(f: BannerForm)
      modifies this`form
      ensures form == f
    {
      form := f;
    }

    /** `onDrop`: besides selecting the file, the preview becomes the dropped file's local URL. */
    method HandleDrop(acceptedFiles: seq<File>)
      modifies this`drop, this`existingImageUrl
      ensures drop == OnDrop(old(drop), acceptedFiles)
      ensures existingImageUrl == if acceptedFiles == [] then old(existingImageUrl) else Some(ObjectUrl(acceptedFiles[0].name))
    {
      drop := OnDrop(drop, acceptedFiles);
      if acceptedFiles != [] {
        existingImageUrl := Some(ObjectUrl(acceptedFiles[0].name));
      }
    }

    /** `onDropRejected`: the preview is kept. */
    method HandleDropRejected(rejections: seq<seq<string>>)
      modifies this`drop
      ensures drop == OnDropRejected(rejections)
    {
      drop := OnDropRejected(rejections);
    }
  }
}

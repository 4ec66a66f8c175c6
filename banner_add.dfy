/**
  The new-banner form: a title, a subtitle and an image that must be chosen;
  the image is uploaded first and the banner created with the upload's id.
 */
module BannerAdd {
  import opened Common
  import opened Store
  import opened ImageUploads

  /** The values of the banner form. */
  datatype BannerForm = BannerForm(title: string, subtitle: string)

  const NO_IMAGE := "Please select an image"
  const ADDED := "Banner has been added successfully"
  const ADD_FAILED := "Failed to add banner. Please try again."
  const BANNER_LIST := "/bannerlist"

  /** The validation schema: both fields are required. */
  predicate FormAccepted(f: BannerForm)
  {
    f.title != "" && f.subtitle != ""
  }

  class BannerAddPage {
    const store: Backend
    var form: BannerForm
    var drop: DropState
    var navigatedTo: Option<string>

    constructor (store: Backend)
      ensures this.store == store && form == BannerForm("", "") && drop == DropState(None, []) && navigatedTo == None
    {
      this.store := store;
      form, drop, navigatedTo := BannerForm("", ""), DropState(None, []), None;
    }

    /**
      The form's `onSubmit`: a rejected form does nothing; without an image it
      reports an error and writes nothing; otherwise the image is uploaded and,
      only after that succeeds, the banner `{title, subtitle, imageId}` is
      created with the upload's id. A failed creation leaves the upload behind.
     */
    method Submit() returns (notice: Notice)
      requires store.Valid()
      modifies store`files, store`banners, this`navigatedTo
      ensures store.Valid()
      ensures !FormAccepted(form) ==> notice == Quiet
      ensures !FormAccepted(form) || drop.selectedFile.None? ==>
                store.files == old(store.files) && store.banners == old(store.banners) && navigatedTo == old(navigatedTo)
      ensures FormAccepted(form) && drop.selectedFile.None? ==> notice == Failure(NO_IMAGE)
      ensures notice == Success(ADDED) ==>
                && FormAccepted(form) && drop.selectedFile.Some?
                && |store.banners| == |old(store.banners)| + 1
                && store.banners[..|old(store.banners)|] == old(store.banners)
                && navigatedTo == Some(BANNER_LIST)
                && var created := store.banners[|old(store.banners)|];
                   && created.title == form.title && created.subtitle == form.subtitle
                   && store.files == old(store.files) + {created.imageId}
                   && created.imageId !in old(store.files) && created.imageId != ""
      ensures notice == Failure(ADD_FAILED) ==>
                && store.banners == old(store.banners) && navigatedTo == old(navigatedTo)
                && (|| store.files == old(store.files)
                    || exists orphan :: orphan != "" && orphan !in old(store.files) && store.files == old(store.files) + {orphan})
      ensures FormAccepted(form) && drop.selectedFile.Some? ==> notice == Success(ADDED) || notice == Failure(ADD_FAILED)
    {
      if !FormAccepted(form) {
        return Quiet;
      }
      if drop.selectedFile.None? {
        return Failure(NO_IMAGE);
      }
      var uploaded := store.CreateFile(drop.selectedFile.value);
      if uploaded.None? {
        return Failure(ADD_FAILED);
      }
      var imageId := uploaded.value;
      var id := store.CreateBanner(form.title, form.subtitle, imageId);
      if id.None? {
        return Failure(ADD_FAILED);
      }
      navigatedTo := Some(BANNER_LIST);
      return Success(ADDED);
    }

    /** A change to a field of the form. */
    method HandleChange(f: BannerForm)
      modifies this`form
      ensures form == f
    {
      form := f;
    }

    method HandleDrop(acceptedFiles: seq<File>)
      modifies this`drop
      ensures drop == OnDrop(old(drop), acceptedFiles)
    {
      drop := OnDrop(drop, acceptedFiles);
    }

    method HandleDropRejected(rejections: seq<seq<string>>)
      modifies this`drop
      ensures drop == OnDropRejected(rejections)
    {
      drop := OnDropRejected(rejections);
    }
  }
}

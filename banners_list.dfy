/**
  The banner list: banners are fetched 100 at a time, each page after the
  last banner of the previous one, until a short page; a banner is deleted
  together with its image file.
 */
module BannersList {
  import opened Common
  import opened Store

  const PAGE_SIZE: nat := 100

  const FETCH_FAILED := "Failed to fetch banners"
  const DELETED := "Banner deleted successfully"
  const DELETE_FAILED := "Failed to delete banner"

  /** The cursor a query uses: none when unset or empty (`if (cursor)`). */
  function QueryCursor(cursor: Option<string>): Option<string>
  {
    if cursor.Some? && cursor.value != "" then cursor else None
  }

  /** `getImageURL`: no URL for a banner without an image, else the file's preview. */
  function ImageUrl(imageId: string): (r: Option<Href>)
    ensures r.None? <==> imageId == ""
    ensures r.Some? ==> r.value == FilePreview(imageId)
  {
    if imageId == "" then None else Some(FilePreview(imageId))
  }

  /** With unique ids, the banner a cursor names is found at its own position. */
  lemma CursorPosition(banners: seq<Banner>, k: nat)
    requires UniqueIds(banners, BannerId) && 0 < k <= |banners|
    ensures BannersAfter(banners, Some(banners[k - 1].id), PAGE_SIZE) == Some(Prefix(banners[k..], PAGE_SIZE))
  {
    var c := banners[k - 1].id;
    var i := FirstIndex(banners, (b: Banner) => b.id == c);
    assert i.Some?;
    assert i.value == k - 1 by {
      assert BannerId(banners[i.value]) == BannerId(banners[k - 1]);
    }
  }

  /** The page after the first `k` banners extends the listed prefix by its own length. */
  lemma PageStep(banners: seq<Banner>, k: nat)
    requires k <= |banners|
    ensures var page := Prefix(banners[k..], PAGE_SIZE);
            && banners[..k] + page == banners[..k + |page|]
            && (|page| == PAGE_SIZE ==> k + PAGE_SIZE <= |banners|)
            && (|page| < PAGE_SIZE ==> k + |page| == |banners|)
            && (page != [] ==> page[|page| - 1] == banners[k + |page| - 1])
  {
  }

  class BannersPage {
    const store: Backend
    var bannersList: seq<Banner>
    var cursor: Option<string>
    var hasMore: bool
    var deleteModal: bool
    var bannerToDelete: Option<Banner>

    constructor (store: Backend)
      ensures this.store == store
      ensures bannersList == [] && cursor == None && hasMore && !deleteModal && bannerToDelete == None
    {
      this.store := store;
      bannersList, cursor, hasMore, deleteModal, bannerToDelete := [], None, true, false, None;
    }

    /**
      `fetchBanners`: nothing once `hasMore` is false. Otherwise one request for
      at most 100 banners after the cursor; its page is appended, a short page
      clears `hasMore`, and a non-empty page moves the cursor to its last banner.
      A failed request changes nothing.
     */
    method FetchBanners() returns (notice: Notice, page: seq<Banner>)
      modifies this`bannersList, this`cursor, this`hasMore
      ensures !old(hasMore) ==> notice == Quiet && page == []
                                && bannersList == old(bannersList) && cursor == old(cursor) && !hasMore
      ensures notice.Failure? ==> notice == Failure(FETCH_FAILED)
                                  && bannersList == old(bannersList) && cursor == old(cursor) && hasMore == old(hasMore)
      ensures old(hasMore) && notice == Quiet ==>
                && BannersAfter(store.banners, QueryCursor(old(cursor)), PAGE_SIZE) == Some(page)
                && bannersList == old(bannersList) + page
                && hasMore == (|page| == PAGE_SIZE)
                && cursor == if page == [] then old(cursor) else Some(page[|page| - 1].id)
      ensures notice == Quiet || notice.Failure?
    {
      page := [];
      if !hasMore {
        return Quiet, page;
      }
      var response := store.ListBanners(PAGE_SIZE, QueryCursor(cursor));
      if response.None? {
        return Failure(FETCH_FAILED), page;
      }
      page := response.value;
      assert |page| <= PAGE_SIZE;
      if |page| < PAGE_SIZE {
        hasMore := false;
      }
      if |page| > 0 {
        cursor := Some(page[|page| - 1].id);
      }
      bannersList := bannersList + page;
      notice := Quiet;
    }

    /**
      The effect chain from a freshly mounted page: each fetch that changes the
      cursor or clears `hasMore` runs the effect again, so fetching continues
      until a short page. When no request fails every stored banner ends up
      listed, in order; after a failure the list is a prefix of the store,
      `hasMore` stays set and the cursor stays at the last listed banner.
     */
    method LoadAll() returns (notice: Notice)
      requires store.Valid() && bannersList == [] && cursor == None && hasMore
      modifies this`bannersList, this`cursor, this`hasMore
      ensures notice == Quiet ==> bannersList == store.banners && !hasMore
      ensures notice.Failure? ==> && |bannersList| <= |store.banners| && bannersList == store.banners[..|bannersList|]
                                  && hasMore
                                  && cursor == if bannersList == [] then None else Some(store.banners[|bannersList| - 1].id)
      ensures notice == Quiet || notice == Failure(FETCH_FAILED)
    {
      notice := Quiet;
      while hasMore
        invariant notice == Quiet
        invariant |bannersList| <= |store.banners| && bannersList == store.banners[..|bannersList|]
        invariant bannersList == [] ==> cursor == None
        invariant bannersList != [] ==> cursor == Some(store.banners[|bannersList| - 1].id)
        invariant !hasMore ==> bannersList == store.banners
        decreases |store.banners| - |bannersList| + (if hasMore then 1 else 0)
      {
        var k := |bannersList|;
        if k > 0 {
          CursorPosition(store.banners, k);
          assert QueryCursor(cursor) == cursor;
        } else {
          assert store.banners[k..] == store.banners;
        }
        assert BannersAfter(store.banners, QueryCursor(cursor), PAGE_SIZE) == Some(Prefix(store.banners[k..], PAGE_SIZE));
        PageStep(store.banners, k);
        var page;
        notice, page := FetchBanners();
        if notice.Failure? {
          return;
        }
        assert page == Prefix(store.banners[k..], PAGE_SIZE);
      }
    }

    /** "Load More" sets the cursor to the value it already has, which runs no fetch. */
    method LoadMore()
      modifies this`cursor
      ensures cursor == old(cursor) && bannersList == old(bannersList) && hasMore == old(hasMore)
    {
      cursor := cursor;
    }

    method OnClickDelete(banner: Banner)
      modifies this`bannerToDelete, this`deleteModal
      ensures bannerToDelete == Some(banner) && deleteModal
    {
      bannerToDelete := Some(banner);
      deleteModal := true;
    }

    /** Closing the delete dialog without deleting: the chosen banner stays. */
    method CancelDelete()
      modifies this`deleteModal
      ensures !deleteModal
    {
      deleteModal := false;
    }

    /**
      `handleDeleteBanner`: without a chosen banner nothing happens. Otherwise
      its image file is deleted first when it has one, then the document, and
      then exactly that id leaves the list. On any failure the list is as it was.
     */
    method HandleDeleteBanner() returns (notice: Notice)
      requires store.Valid()
      modifies store`files, store`banners, this`bannersList, this`deleteModal
      ensures store.Valid()
      ensures bannerToDelete.None? ==> notice == Quiet && store.banners == old(store.banners)
                                       && store.files == old(store.files) && bannersList == old(bannersList)
                                       && deleteModal == old(deleteModal)
      ensures notice == Success(DELETED) ==>
                && bannerToDelete.Some?
                && bannersList == WithoutBanner(old(bannersList), bannerToDelete.value.id)
                && store.banners == WithoutBanner(old(store.banners), bannerToDelete.value.id)
                && store.files == (if bannerToDelete.value.imageId == "" then old(store.files)
                                   else old(store.files) - {bannerToDelete.value.imageId})
                && !deleteModal
      ensures notice.Failure? ==> notice == Failure(DELETE_FAILED) && bannersList == old(bannersList)
                                  && store.banners == old(store.banners) && deleteModal == old(deleteModal)
                                  && (|| store.files == old(store.files)
                                      || (bannerToDelete.Some? && store.files == old(store.files) - {bannerToDelete.value.imageId}))
      ensures bannerToDelete.Some? ==> notice == Success(DELETED) || notice == Failure(DELETE_FAILED)
    {
      if bannerToDelete.None? {
        return Quiet;
      }
      var banner := bannerToDelete.value;
      if banner.imageId != "" {
        var ok := store.DeleteFile(banner.imageId);
        if !ok {
          return Failure(DELETE_FAILED);
        }
      }
      var ok := store.DeleteBanner(banner.id);
      if !ok {
        return Failure(DELETE_FAILED);
      }
      deleteModal := false;
      bannersList := WithoutBanner(bannersList, banner.id);
      return Success(DELETED);
    }
  }
}

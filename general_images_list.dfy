/**
  The general-data page: it shows the first listed general-data document, or
  creates one from fixed defaults when there is none; its social links are
  turned into absolute URLs and empty fields show a placeholder.
 */
module GeneralimagesList {
  import opened Common
  import opened Store

  /** The document created when the collection is empty; its id is assigned by the backend. */
  const DEFAULTS := GeneralData(
    "", "", SiteUrl("facebook"), SiteUrl("twitter"), SiteUrl("instagram"), SiteUrl("linkedin"),
    "<p>Default Terms and Conditions.</p>")

  /** The home page of a social site, as the defaults spell it. */
  function SiteUrl(site: string): string
  {
    "https://www." + site + ".com"
  }

  const CREATED := "Dummy General Data created."
  const FETCH_FAILED := "Failed to fetch General Data."
  const EDIT_ROUTE := "/editgeneralimages/"

  const NO_LOGO := "No logo image uploaded."
  const NO_FACEBOOK := "No Facebook link."
  const NO_TWITTER := "No Twitter link."
  const NO_INSTAGRAM := "No Instagram link."
  const NO_LINKEDIN := "No LinkedIn link."
  const NO_TERMS := "No Terms and Conditions provided."

  /** `getImageURL`: no URL for an empty id, else the file's download URL. */
  function ImageUrl(imageId: string): (r: Option<Href>)
    ensures r.None? <==> imageId == ""
    ensures r.Some? ==> r.value == FileDownload(imageId)
  {
    if imageId == "" then None else Some(FileDownload(imageId))
  }

  /** A link's `href`: kept when it starts with "http", otherwise given an `https://` scheme. */
  function SocialHref(link: string): (r: string)
  {
    if StartsWith(link, "http") then link else "https://" + link
  }

  /** The href always starts with "http", keeps the link as its tail, and is the link itself exactly when the link starts with "http". */
  lemma SocialHrefShape(link: string)
    ensures StartsWith(SocialHref(link), "http")
    ensures StartsWith(link, "http") <==> SocialHref(link) == link
    ensures !StartsWith(link, "http") ==> SocialHref(link) == "https://" + link
  {
    if !StartsWith(link, "http") {
      var r := "https://" + link;
      assert r[..4] == "http";
      assert |r| == |link| + 8;
    }
  }

  /** Normalising twice is normalising once. */
  lemma SocialHrefIdempotent(link: string)
    ensures SocialHref(SocialHref(link)) == SocialHref(link)
  {
    SocialHrefShape(link);
  }

  /** "http" is checked as a bare prefix: a host that merely begins with those letters gets no scheme. */
  lemma SchemeIsNotChecked(host: string)
    ensures SocialHref("http" + host) == "http" + host
  {
    assert ("http" + host)[..4] == "http";
  }

  /** One cell of the details table. */
  datatype Cell =
    | Image(url: Href)
    | Link(href: string, text: string)
    | Html(markup: string)
    | Placeholder(text: string)

  /** A social-link cell: the link's text pointing at its normalised href, or the placeholder. */
  function SocialCell(link: string, placeholder: string): (c: Cell)
    ensures c.Placeholder? <==> link == ""
    ensures c.Placeholder? ==> c.text == placeholder
    ensures c.Link? ==> c.text == link && StartsWith(c.href, "http")
  {
    SocialHrefShape(link);
    if link == "" then Placeholder(placeholder) else Link(SocialHref(link), link)
  }

  /** The six rows of the table: logo, four social links, terms. */
  function Cells(d: GeneralData): (cells: seq<Cell>)
    ensures |cells| == 6
    ensures cells[0].Placeholder? <==> d.logo == ""
    ensures cells[0] == if d.logo == "" then Placeholder(NO_LOGO) else Image(FileDownload(d.logo))
    ensures cells[1] == SocialCell(d.facebook, NO_FACEBOOK) && cells[2] == SocialCell(d.twitter, NO_TWITTER)
    ensures cells[3] == SocialCell(d.instagram, NO_INSTAGRAM) && cells[4] == SocialCell(d.linkedin, NO_LINKEDIN)
    ensures cells[5].Placeholder? <==> d.terms == ""
    ensures cells[5] == if d.terms == "" then Placeholder(NO_TERMS) else Html(d.terms)
  {
    var logo := ImageUrl(d.logo);
    [ if logo.None? then Placeholder(NO_LOGO) else Image(logo.value),
      SocialCell(d.facebook, NO_FACEBOOK), SocialCell(d.twitter, NO_TWITTER),
      SocialCell(d.instagram, NO_INSTAGRAM), SocialCell(d.linkedin, NO_LINKEDIN),
      if d.terms == "" then Placeholder(NO_TERMS) else Html(d.terms) ]
  }

  /** What the page body shows. */
  datatype View = Loading | Details(editLink: string, cells: seq<Cell>) | NoData

  function Render(isLoading: bool, heroSection: Option<GeneralData>): (v: View)
    ensures isLoading <==> v == Loading
    ensures v.NoData? <==> !isLoading && heroSection.None?
    ensures v.Details? ==> v.editLink == EDIT_ROUTE + heroSection.value.id && v.cells == Cells(heroSection.value)
  {
    if isLoading then Loading
    else if heroSection.None? then NoData
    else Details(EDIT_ROUTE + heroSection.value.id, Cells(heroSection.value))
  }

  /** A document whose links all start with "http" and which has no logo shows each link as stored. */
  lemma LinksShownAsStored(d: GeneralData)
    requires d.logo == "" && d.terms != ""
    requires StartsWith(d.facebook, "http") && StartsWith(d.twitter, "http")
    requires StartsWith(d.instagram, "http") && StartsWith(d.linkedin, "http")
    ensures var cells := Cells(d);
            && cells[0] == Placeholder(NO_LOGO)
            && cells[1] == Link(d.facebook, d.facebook) && cells[2] == Link(d.twitter, d.twitter)
            && cells[3] == Link(d.instagram, d.instagram) && cells[4] == Link(d.linkedin, d.linkedin)
            && cells[5] == Html(d.terms)
  {
  }

  /** A freshly created default document shows no logo, its four links unchanged and its terms. */
  lemma DefaultsShownAsStored(id: string)
    ensures var cells := Cells(DEFAULTS.(id := id));
            && cells[0] == Placeholder(NO_LOGO)
            && cells[1] == Link(DEFAULTS.facebook, DEFAULTS.facebook) && cells[2] == Link(DEFAULTS.twitter, DEFAULTS.twitter)
            && cells[3] == Link(DEFAULTS.instagram, DEFAULTS.instagram) && cells[4] == Link(DEFAULTS.linkedin, DEFAULTS.linkedin)
            && cells[5] == Html(DEFAULTS.terms)
  {
    SiteUrlStartsWithHttp("facebook");
    SiteUrlStartsWithHttp("twitter");
    SiteUrlStartsWithHttp("instagram");
    SiteUrlStartsWithHttp("linkedin");
    assert |DEFAULTS.terms| > 0;
    LinksShownAsStored(DEFAULTS.(id := id));
  }

  lemma SiteUrlStartsWithHttp(site: string)
    ensures StartsWith(SiteUrl(site), "http")
  {
    assert SiteUrl(site)[..4] == "http";
  }

  class GeneralImagesListPage {
    const store: Backend
    var heroSection: Option<GeneralData>
    var isLoading: bool

    constructor (store: Backend)
      ensures this.store == store && heroSection == None && isLoading
    {
      this.store := store;
      heroSection, isLoading := None, true;
    }

    /**
      `fetchHeroSection`: the first listed document is shown; when the listing
      is empty a document with the defaults is created and shown. Either way the
      shown document is the first of the collection afterwards, and an existing
      collection is never written. A failure shows nothing new.
     */
    method FetchHeroSection() returns (notice: Notice)
      requires store.Valid()
      modifies store`generalData, this`heroSection, this`isLoading
      ensures store.Valid() && !isLoading
      ensures notice == Quiet || notice == Success(CREATED) || notice == Failure(FETCH_FAILED)
      ensures notice.Failure? ==> heroSection == old(heroSection) && store.generalData == old(store.generalData)
      ensures !notice.Failure? ==> store.generalData != [] && heroSection == Some(store.generalData[0])
      ensures old(store.generalData) != [] ==> store.generalData == old(store.generalData) && !notice.Success?
      ensures notice.Success? ==> && old(store.generalData) == []
                                  && store.generalData == [DEFAULTS.(id := store.generalData[0].id)]
      ensures notice == Quiet ==> old(store.generalData) != [] && heroSection == Some(old(store.generalData)[0])
    {
      isLoading := true;
      var response := store.ListGeneralData();
      if response.None? {
        isLoading := false;
        return Failure(FETCH_FAILED);
      }
      notice := Quiet;
      var heroData;
      if response.value != [] {
        heroData := response.value[0];
      } else {
        var created := store.CreateGeneralData(DEFAULTS);
        if created.None? {
          isLoading := false;
          return Failure(FETCH_FAILED);
        }
        heroData := created.value;
        notice := Success(CREATED);
      }
      heroSection := Some(heroData);
      isLoading := false;
    }
  }
}

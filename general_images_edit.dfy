/**
  The site-images editor: four image slots (login, wholesale, contact and
  policy) are loaded from the `Generalimages` collection, each replaced only
  when a new file was dropped on it, and the four ids are written to the
  `heroSection` collection under the same document id.
 */
module GeneralimagesEdit {
  import opened Common
  import opened Store
  import opened ImageUploads

  const FETCH_FAILED := "Failed to fetch Images data"
  const UPDATED := "Images updated successfully"
  const UPDATE_FAILED := "Failed to update Images. Please try again."
  const IMAGES_LIST := "/generalimageslist"

  /** The preview shown for a slot on load: the file's preview when the slot has a file, else the one shown before. */
  function LoadedPreview(shown: Option<Href>, fileId: string): (r: Option<Href>)
    ensures fileId == "" ==> r == shown
    ensures fileId != "" ==> r == Some(FilePreview(fileId))
  {
    if fileId != "" then Some(FilePreview(fileId)) else shown
  }

  /** The bucket after the first `n` slots, in the order the editor handles them. */
  function AfterPrefix(files: set<string>, chosen: seq<bool>, current: seq<string>, saved: seq<string>, n: nat): set<string>
    requires n <= |chosen| == |current| == |saved|
  {
    if n == 0 then files
    else AfterSlot(AfterPrefix(files, chosen, current, saved, n - 1), chosen[n - 1], current[n - 1], saved[n - 1])
  }

  /** The bucket after all four slots. */
  function AfterSlots(files: set<string>, chosen: seq<bool>, current: seq<string>, saved: seq<string>): set<string>
    requires |chosen| == |current| == |saved| == 4
  {
    AfterPrefix(files, chosen, current, saved, 4)
  }

  /**
    The bucket when the slots stopped at a failure: the first `n` slots were
    replaced, and the slot after them may have left its upload `saved[n]`
    behind when deleting its previous file failed.
   */
  predicate StoppedAt(before: set<string>, after: set<string>, chosen: seq<bool>, current: seq<string>, saved: seq<string>)
    requires |chosen| == |current| == |saved| == 4
  {
    exists n :: 0 <= n <= 4 &&
      var done := AfterPrefix(before, chosen, current, saved, n);
      || after == done
      || (n < 4 && saved[n] != "" && saved[n] !in done && after == done + {saved[n]})
  }

  /**
    Slots are independent: a file that is neither the previous nor the saved
    file of a slot with a new upload keeps its presence in the bucket.
   */
  lemma OtherFilesUntouched(files: set<string>, chosen: seq<bool>, current: seq<string>, saved: seq<string>, f: string)
    requires |chosen| == |current| == |saved| == 4
    requires forall k :: 0 <= k < 4 && chosen[k] ==> f != current[k] && f != saved[k]
    ensures f in AfterSlots(files, chosen, current, saved) <==> f in files
  {
    OtherFilesUntouchedUpTo(files, chosen, current, saved, f, 4);
  }

  lemma {:induction false} OtherFilesUntouchedUpTo(files: set<string>, chosen: seq<bool>, current: seq<string>, saved: seq<string>, f: string, n: nat)
    requires n <= |chosen| == |current| == |saved| == 4
    requires forall k :: 0 <= k < n && chosen[k] ==> f != current[k] && f != saved[k]
    ensures f in AfterPrefix(files, chosen, current, saved, n) <==> f in files
  {
    if n > 0 {
      OtherFilesUntouchedUpTo(files, chosen, current, saved, f, n - 1);
    }
  }

  /** With no new file at all, the bucket is untouched. */
  lemma NoUploadNoChange(files: set<string>, current: seq<string>, saved: seq<string>)
    requires |current| == |saved| == 4
    ensures AfterSlots(files, [false, false, false, false], current, saved) == files
  {
    UnchosenPrefix(files, [false, false, false, false], current, saved, 4);
  }

  lemma {:induction false} UnchosenPrefix(files: set<string>, chosen: seq<bool>, current: seq<string>, saved: seq<string>, n: nat)
    requires n <= |chosen| == |current| == |saved| == 4
    requires forall k :: 0 <= k < n ==> !chosen[k]
    ensures AfterPrefix(files, chosen, current, saved, n) == files
  {
    if n > 0 {
      UnchosenPrefix(files, chosen, current, saved, n - 1);
    }
  }

  /**
    Writing the four slots changes only those four fields of the document with
    the id, and in particular never its main `imageId`.
   */
  lemma SlotsUpdateKeepsOtherFields(docs: seq<ImagesDoc>, id: string, login: string, wholesale: string, contact: string, policy: string)
    ensures var r := SetImageSlots(docs, id, login, wholesale, contact, policy);
            && |r| == |docs|
            && forall i :: 0 <= i < |docs| ==>
                 && r[i].id == docs[i].id && r[i].imageId == docs[i].imageId
                 && (r[i] == docs[i] || (docs[i].id == id && r[i] == docs[i].(loginImage := login, wholesaleImage := wholesale,
                                                                               contactImage := contact, policyImage := policy)))
  {
  }

  /** The four slot ids of a loaded document: login, wholesale, contact, policy. */
  function Current(hero: ImagesDoc): (ids: seq<string>)
    ensures |ids| == 4
  {
    [hero.loginImage, hero.wholesaleImage, hero.contactImage, hero.policyImage]
  }

  /** A run of bucket states, each one slot after the previous, ends in the bucket after that many slots. */
  lemma {:induction false} PrefixOfStates(states: seq<set<string>>, chosen: seq<bool>, current: seq<string>, saved: seq<string>, n: nat)
    requires |chosen| == |current| == |saved| == 4 && n <= 4 && |states| == n + 1
    requires forall k :: 0 <= k < n ==> states[k + 1] == AfterSlot(states[k], chosen[k], current[k], saved[k])
    ensures AfterPrefix(states[0], chosen, current, saved, n) == states[n]
  {
    if n > 0 {
      PrefixOfStates(states[..n], chosen, current, saved, n - 1);
    }
  }

  /**
    After the first `n` slots went through, a failing slot `n` that left the
    bucket as it was, or with only its own upload added, has stopped part-way.
   */
  lemma Stop(states: seq<set<string>>, after: set<string>, chosen: seq<bool>, current: seq<string>, saved: seq<string>, n: nat)
    requires |chosen| == |current| == |saved| == 4 && n < 4 && |states| == n + 1
    requires forall k :: 0 <= k < n ==> states[k + 1] == AfterSlot(states[k], chosen[k], current[k], saved[k])
    requires || after == states[n]
             || (saved[n] != "" && saved[n] !in states[n] && after == states[n] + {saved[n]})
    ensures StoppedAt(states[0], after, chosen, current, saved)
  {
    PrefixOfStates(states, chosen, current, saved, n);
  }

  class GeneralImagesEditPage {
    const store: Backend
    const id: string
    var heroData: Option<ImagesDoc>
    var selectedLoginFile: Option<File>
    var selectedWholesaleFile: Option<File>
    var selectedContactFile: Option<File>
    var selectedPolicyFile: Option<File>
    var existingLoginImageUrl: Option<Href>
    var existingWholesaleImageUrl: Option<Href>
    var existingContactImageUrl: Option<Href>
    var existingPolicyImageUrl: Option<Href>
    var drop: DropState
    var existingImageUrl: Option<Href>
    var navigatedTo: Option<string>

    constructor (store: Backend, id: string)
      ensures this.store == store && this.id == id && heroData == None && navigatedTo == None
      ensures drop == DropState(None, []) && existingImageUrl == None
      ensures selectedLoginFile == None && selectedWholesaleFile == None
      ensures selectedContactFile == None && selectedPolicyFile == None
      ensures existingLoginImageUrl == None && existingWholesaleImageUrl == None
      ensures existingContactImageUrl == None && existingPolicyImageUrl == None
    {
      this.store, this.id := store, id;
      heroData, navigatedTo := None, None;
      drop, existingImageUrl := DropState(None, []), None;
      selectedLoginFile, selectedWholesaleFile, selectedContactFile, selectedPolicyFile := None, None, None, None;
      existingLoginImageUrl, existingWholesaleImageUrl := None, None;
      existingContactImageUrl, existingPolicyImageUrl := None, None;
    }

    /** `fetchHeroSection`: read from `Generalimages`; a preview only for the slots that have a file. */
    method Load() returns (notice: Notice)
      modifies this`heroData, this`existingLoginImageUrl, this`existingWholesaleImageUrl
      modifies this`existingContactImageUrl, this`existingPolicyImageUrl
      ensures notice == Quiet || notice == Failure(FETCH_FAILED)
      ensures notice == Quiet ==>
                && heroData.Some? && heroData.value in store.generalImages && heroData.value.id == id
                && existingLoginImageUrl == LoadedPreview(old(existingLoginImageUrl), heroData.value.loginImage)
                && existingWholesaleImageUrl == LoadedPreview(old(existingWholesaleImageUrl), heroData.value.wholesaleImage)
                && existingContactImageUrl == LoadedPreview(old(existingContactImageUrl), heroData.value.contactImage)
                && existingPolicyImageUrl == LoadedPreview(old(existingPolicyImageUrl), heroData.value.policyImage)
      ensures notice.Failure? ==>
                && heroData == old(heroData)
                && existingLoginImageUrl == old(existingLoginImageUrl) && existingWholesaleImageUrl == old(existingWholesaleImageUrl)
                && existingContactImageUrl == old(existingContactImageUrl) && existingPolicyImageUrl == old(existingPolicyImageUrl)
    {
      var hero := store.GetGeneralImages(id);
      if hero.None? {
        return Failure(FETCH_FAILED);
      }
      heroData := hero;
      existingLoginImageUrl := LoadedPreview(existingLoginImageUrl, hero.value.loginImage);
      existingWholesaleImageUrl := LoadedPreview(existingWholesaleImageUrl, hero.value.wholesaleImage);
      existingContactImageUrl := LoadedPreview(existingContactImageUrl, hero.value.contactImage);
      existingPolicyImageUrl := LoadedPreview(existingPolicyImageUrl, hero.value.policyImage);
      return Quiet;
    }

    function Chosen(): seq<bool>
      reads this
    {
      [selectedLoginFile.Some?, selectedWholesaleFile.Some?, selectedContactFile.Some?, selectedPolicyFile.Some?]
    }

    /**
      The four slots in turn: each keeps its loaded id, or, when a file was
      chosen for it, uploads the file, takes the upload's id and deletes its
      previous file if it had one. The first failure stops the sequence.
     */
    method ReplaceSlots(hero: ImagesDoc) returns (ok: bool, login: string, wholesale: string, contact: string, policy: string)
      modifies store`files
      ensures ok ==> store.files == AfterSlots(old(store.files), Chosen(), Current(hero), [login, wholesale, contact, policy])
      ensures ok ==> forall k :: 0 <= k < 4 ==>
                       if Chosen()[k] then [login, wholesale, contact, policy][k] != ""
                       else [login, wholesale, contact, policy][k] == Current(hero)[k]
      ensures !ok ==> StoppedAt(old(store.files), store.files, Chosen(), Current(hero), [login, wholesale, contact, policy])
    {
      ghost var chosen, current := Chosen(), Current(hero);
      ghost var f0 := store.files;
      ok, login := ReplaceImage(store, hero.loginImage, selectedLoginFile);
      wholesale, contact, policy := hero.wholesaleImage, hero.contactImage, hero.policyImage;
      if !ok {
        Stop([f0], store.files, chosen, current, [login, wholesale, contact, policy], 0);
        return;
      }
      ghost var f1 := store.files;
      ok, wholesale := ReplaceImage(store, hero.wholesaleImage, selectedWholesaleFile);
      if !ok {
        Stop([f0, f1], store.files, chosen, current, [login, wholesale, contact, policy], 1);
        return;
      }
      ghost var f2 := store.files;
      ok, contact := ReplaceImage(store, hero.contactImage, selectedContactFile);
      if !ok {
        Stop([f0, f1, f2], store.files, chosen, current, [login, wholesale, contact, policy], 2);
        return;
      }
      ghost var f3 := store.files;
      ok, policy := ReplaceImage(store, hero.policyImage, selectedPolicyFile);
      if !ok {
        Stop([f0, f1, f2, f3], store.files, chosen, current, [login, wholesale, contact, policy], 3);
        return;
      }
      PrefixOfStates([f0, f1, f2, f3, store.files], chosen, current, [login, wholesale, contact, policy], 4);
    }

    /**
      The form's `onSubmit`. Without loaded data it fails and writes nothing.
      Otherwise the slots are replaced and then the four ids, and nothing else,
      are written to `heroSection`; the `Generalimages` document the page was
      loaded from is never written. A failure leaves the slots done so far,
      and possibly one upload, in the bucket; `saved` holds the slot ids reached.
     */
    method Submit() returns (notice: Notice, saved: seq<string>)
      requires store.Valid()
      modifies store`files, store`heroSection, this`navigatedTo
      ensures store.Valid() && |saved| == 4
      ensures heroData.None? ==> notice == Failure(UPDATE_FAILED)
                                 && store.files == old(store.files) && store.heroSection == old(store.heroSection)
      ensures notice.Success? ==>
                && notice == Success(UPDATED) && heroData.Some? && navigatedTo == Some(IMAGES_LIST)
                && store.heroSection == SetImageSlots(old(store.heroSection), id, saved[0], saved[1], saved[2], saved[3])
                && store.files == AfterSlots(old(store.files), Chosen(), Current(heroData.value), saved)
                && forall k :: 0 <= k < 4 ==> if Chosen()[k] then saved[k] != "" else saved[k] == Current(heroData.value)[k]
      ensures notice.Failure? ==> notice == Failure(UPDATE_FAILED) && store.heroSection == old(store.heroSection)
                                  && navigatedTo == old(navigatedTo)
      ensures notice.Failure? && heroData.Some? ==>
                StoppedAt(old(store.files), store.files, Chosen(), Current(heroData.value), saved)
      ensures notice.Success? || notice.Failure?
    {
      saved := ["", "", "", ""];
      if heroData.None? {
        return Failure(UPDATE_FAILED), saved;
      }
      var ok, login, wholesale, contact, policy := ReplaceSlots(heroData.value);
      saved := [login, wholesale, contact, policy];
      if !ok {
        return Failure(UPDATE_FAILED), saved;
      }
      ok := store.UpdateHeroSection(id, login, wholesale, contact, policy);
      if !ok {
        assert store.files == AfterPrefix(old(store.files), Chosen(), Current(heroData.value), saved, 4);
        return Failure(UPDATE_FAILED), saved;
      }
      navigatedTo := Some(IMAGES_LIST);
      notice := Success(UPDATED);
    }

    /**
      The main drop zone: it only records a selection and a preview, which the
      submit never reads. The page renders no element for this zone, so the
      handler can never fire.
     */
    method HandleDrop(acceptedFiles: seq<File>)
      modifies this`drop, this`existingImageUrl
      ensures drop == OnDrop(old(drop), acceptedFiles)
      ensures existingImageUrl == if acceptedFiles == [] then old(existingImageUrl) else Some(ObjectUrl(acceptedFiles[0].name))
    {
      drop := OnDrop(drop, acceptedFiles);
      if acceptedFiles != [] {
        existingImageUrl := Some(ObjectUrl(acceptedFiles[0].name));
      }
    }

    /** The main drop zone's rejection handler; unreachable for the same reason. */
    method HandleDropRejected(rejections: seq<seq<string>>)
      modifies this`drop
      ensures drop == OnDropRejected(rejections)
    {
      drop := OnDropRejected(rejections);
    }

    method HandleLoginDrop(acceptedFiles: seq<File>)
      modifies this`selectedLoginFile, this`existingLoginImageUrl
      ensures acceptedFiles == [] ==> selectedLoginFile == old(selectedLoginFile) && existingLoginImageUrl == old(existingLoginImageUrl)
      ensures acceptedFiles != [] ==> selectedLoginFile == Some(acceptedFiles[0]) && existingLoginImageUrl == Some(ObjectUrl(acceptedFiles[0].name))
    {
      if acceptedFiles != [] {
        selectedLoginFile := Some(acceptedFiles[0]);
        existingLoginImageUrl := Some(ObjectUrl(acceptedFiles[0].name));
      }
    }

    method HandleWholesaleDrop(acceptedFiles: seq<File>)
      modifies this`selectedWholesaleFile, this`existingWholesaleImageUrl
      ensures acceptedFiles == [] ==> selectedWholesaleFile == old(selectedWholesaleFile) && existingWholesaleImageUrl == old(existingWholesaleImageUrl)
      ensures acceptedFiles != [] ==> selectedWholesaleFile == Some(acceptedFiles[0]) && existingWholesaleImageUrl == Some(ObjectUrl(acceptedFiles[0].name))
    {
      if acceptedFiles != [] {
        selectedWholesaleFile := Some(acceptedFiles[0]);
        existingWholesaleImageUrl := Some(ObjectUrl(acceptedFiles[0].name));
      }
    }

    method HandleContactDrop(acceptedFiles: seq<File>)
      modifies this`selectedContactFile, this`existingContactImageUrl
      ensures acceptedFiles == [] ==> selectedContactFile == old(selectedContactFile) && existingContactImageUrl == old(existingContactImageUrl)
      ensures acceptedFiles != [] ==> selectedContactFile == Some(acceptedFiles[0]) && existingContactImageUrl == Some(ObjectUrl(acceptedFiles[0].name))
    {
      if acceptedFiles != [] {
        selectedContactFile := Some(acceptedFiles[0]);
        existingContactImageUrl := Some(ObjectUrl(acceptedFiles[0].name));
      }
    }

    method HandlePolicyDrop(acceptedFiles: seq<File>)
      modifies this`selectedPolicyFile, this`existingPolicyImageUrl
      ensures acceptedFiles == [] ==> selectedPolicyFile == old(selectedPolicyFile) && existingPolicyImageUrl == old(existingPolicyImageUrl)
      ensures acceptedFiles != [] ==> selectedPolicyFile == Some(acceptedFiles[0]) && existingPolicyImageUrl == Some(ObjectUrl(acceptedFiles[0].name))
    {
      if acceptedFiles != [] {
        selectedPolicyFile := Some(acceptedFiles[0]);
        existingPolicyImageUrl := Some(ObjectUrl(acceptedFiles[0].name));
      }
    }
  }
}

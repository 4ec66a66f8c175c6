/**
  The image-replacement step the banner and site-image editors share: keep a
  record's file unless a new one was chosen; otherwise upload it first and
  then delete the previous file, when there was one. Also the drop-zone
  selection state.
 */
module ImageUploads {
  import opened Common
  import opened Store

  /** The file ids after replacing `current` by the upload `uploaded`. */
  function Replaced(files: set<string>, current: string, uploaded: string): set<string>
  {
    if current == "" then files + {uploaded} else files + {uploaded} - {current}
  }

  /** The bucket after one slot: replaced when a file was chosen for it, untouched otherwise. */
  function AfterSlot(files: set<string>, chosen: bool, current: string, saved: string): set<string>
  {
    if chosen then Replaced(files, current, saved) else files
  }

  /**
    Without a new file the slot keeps `current` and the bucket is untouched.
    With one, the upload comes first; on success the new id is returned and the
    previous file, if any, is deleted. A failed upload changes nothing; a failed
    deletion leaves the upload in the bucket.
   */
  method ReplaceImage(store: Backend, current: string, file: Option<File>) returns (ok: bool, id: string)
    modifies store`files
    ensures file.None? ==> ok && id == current && store.files == old(store.files)
    ensures file.Some? && ok ==> && id != "" && id !in old(store.files)
                                 && store.files == Replaced(old(store.files), current, id)
    ensures file.Some? && !ok ==> store.files == old(store.files)
                                  || (current != "" && id != "" && id !in old(store.files) && store.files == old(store.files) + {id})
    ensures ok ==> store.files == AfterSlot(old(store.files), file.Some?, current, id)
  {
    if file.None? {
      return true, current;
    }
    var uploaded := store.CreateFile(file.value);
    if uploaded.None? {
      return false, current;
    }
    id := uploaded.value;
    if current != "" {
      ok := store.DeleteFile(current);
    } else {
      ok := true;
    }
  }

  /** A successful replacement keeps exactly the untouched files, the upload, and drops the previous one. */
  lemma ReplacedMembership(files: set<string>, current: string, uploaded: string, f: string)
    requires uploaded != current && uploaded !in files
    ensures f in Replaced(files, current, uploaded) <==> f == uploaded || (f in files && (f != current || current == ""))
  {
  }

  /** What a drop zone holds after a drop. */
  datatype DropState = DropState(selectedFile: Option<File>, fileRejectionErrors: seq<string>)

  /** `onDrop`: the first accepted file is selected and the errors cleared; an empty drop changes nothing. */
  function OnDrop(state: DropState, acceptedFiles: seq<File>): (r: DropState)
    ensures acceptedFiles == [] ==> r == state
    ensures acceptedFiles != [] ==> r.selectedFile == Some(acceptedFiles[0]) && r.fileRejectionErrors == []
  {
    if acceptedFiles == [] then state else DropState(Some(acceptedFiles[0]), [])
  }

  /** `onDropRejected`: no file is selected and each rejected file shows its reasons. */
  function OnDropRejected(rejections: seq<seq<string>>): (r: DropState)
    ensures r.selectedFile.None? && |r.fileRejectionErrors| == |rejections|
    ensures forall i :: 0 <= i < |rejections| ==> r.fileRejectionErrors[i] == Join(rejections[i], ", ")
  {
    DropState(None, seq(|rejections|, i requires 0 <= i < |rejections| => Join(rejections[i], ", ")))
  }

  /** A rejected drop followed by an accepted one leaves no error and the accepted file selected. */
  lemma DropAfterRejection(rejections: seq<seq<string>>, acceptedFiles: seq<File>)
    requires acceptedFiles != []
    ensures OnDrop(OnDropRejected(rejections), acceptedFiles) == DropState(Some(acceptedFiles[0]), [])
  {
  }

  /** A file rejected for one reason shows that reason alone; one with none shows an empty message. */
  lemma SingleReasonMessage(rejections: seq<seq<string>>, i: nat)
    requires i < |rejections|
    ensures |rejections[i]| == 1 ==> OnDropRejected(rejections).fileRejectionErrors[i] == rejections[i][0]
    ensures rejections[i] == [] ==> OnDropRejected(rejections).fileRejectionErrors[i] == ""
  {
  }
}

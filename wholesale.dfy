/**
  The wholesale-account approval screen: requests are listed with their
  applicant's profile joined in by `userId`, approved or rejected with the
  decision mirrored onto the applicant's profile, filtered by tab and search
  term, and opened to show their labelled attachments.
 */
module WholesaleRequests {
  import opened Common
  import opened Store

  const PENDING := "pending"
  const APPROVED := "approved"
  const REJECTED := "rejected"

  /** The cap on both listings of a fetch. */
  const FETCH_LIMIT: nat := 100

  /** An entry of the user map: a fetched profile, or the stand-in for a `userId` with none. */
  datatype UserEntry = Profile(user: UserDoc) | Placeholder {
    function Name(): string
    {
      match this
      case Profile(u) => u.name
      case Placeholder => "Unknown"
    }

    function Email(): string
    {
      match this
      case Profile(u) => u.email
      case Placeholder => ""
    }
  }

  // ------------------------------------------------------------------ joining users to requests

  /** The `userId` of every request, in order. */
  function UserIdsOf(requests: seq<WholesaleRequest>): (ids: seq<string>)
    ensures |ids| == |requests| && forall i :: 0 <= i < |requests| ==> ids[i] == requests[i].userId
  {
    seq(|requests|, i requires 0 <= i < |requests| => requests[i].userId)
  }

  /** The `userId`s the fetched profiles carry. */
  function ProfileUserIds(users: seq<UserDoc>): set<string>
  {
    set u | u in users :: u.userId
  }

  /** The last profile in `users` with this `userId`: later profiles overwrite earlier ones. */
  function LastWithUserId(users: seq<UserDoc>, userId: string): (r: Option<UserDoc>)
    ensures r.None? ==> forall i :: 0 <= i < |users| ==> users[i].userId != userId
    ensures r.Some? ==> exists i :: 0 <= i < |users| && users[i] == r.value && r.value.userId == userId
                                    && forall j :: i < j < |users| ==> users[j].userId != userId
  {
    if users == [] then None
    else if users[|users| - 1].userId == userId then Some(users[|users| - 1])
    else LastWithUserId(users[..|users| - 1], userId)
  }

  /** What the map holds for `userId` once both passes are done. */
  function JoinedEntry(users: seq<UserDoc>, userId: string): UserEntry
  {
    match LastWithUserId(users, userId)
    case Some(u) => Profile(u)
    case None => Placeholder
  }

  /** The user map a fetch builds from the profiles it got and the `userId`s it asked for. */
  function UsersMap(users: seq<UserDoc>, userIds: seq<string>): map<string, UserEntry>
  {
    map k | k in ProfileUserIds(users) + (set k | k in userIds) :: JoinedEntry(users, k)
  }

  /**
    The two `forEach` passes of the fetch: every profile is stored under its
    `userId`, then every requested `userId` still missing gets a placeholder.
   */
  method BuildUsersMap(users: seq<UserDoc>, userIds: seq<string>) returns (m: map<string, UserEntry>)
    ensures m == UsersMap(users, userIds)
  {
    m := map[];
    var i := 0;
    while i < |users|
      invariant 0 <= i <= |users|
      invariant m.Keys == ProfileUserIds(users[..i])
      invariant forall k :: k in m ==> m[k] == JoinedEntry(users[..i], k)
    {
      assert users[..i + 1][..i] == users[..i];
      m := m[users[i].userId := Profile(users[i])];
      i := i + 1;
    }
    assert users[..i] == users;
    var j := 0;
    while j < |userIds|
      invariant 0 <= j <= |userIds|
      invariant m.Keys == ProfileUserIds(users) + (set k | k in userIds[..j])
      invariant forall k :: k in m ==> m[k] == JoinedEntry(users, k)
    {
      var userId := userIds[j];
      if userId !in m {
        m := m[userId := Placeholder];
      }
      assert userIds[..j + 1] == userIds[..j] + [userId];
      j := j + 1;
    }
    assert userIds[..j] == userIds;
  }

  /**
    A fetch's map has exactly one entry per distinct requested `userId`: the
    profiles it got all carry a requested `userId`.
   */
  lemma FetchedUsersMapKeys(users: seq<UserDoc>, requests: seq<WholesaleRequest>)
    ensures var ids := UserIdsOf(requests);
            UsersMap(Prefix(UsersWithUserIdIn(users, ids), FETCH_LIMIT), ids).Keys == (set r | r in requests :: r.userId)
  {
    var ids := UserIdsOf(requests);
    var got := Prefix(UsersWithUserIdIn(users, ids), FETCH_LIMIT);
    forall u | u in got ensures u.userId in ids {
      assert u in UsersWithUserIdIn(users, ids);
    }
    forall k | k in ids ensures k in (set r | r in requests :: r.userId) {
      var i :| 0 <= i < |ids| && ids[i] == k;
      assert requests[i] in requests;
    }
    forall r | r in requests ensures r.userId in ids {
      var i :| 0 <= i < |requests| && requests[i] == r;
      assert ids[i] == r.userId;
    }
  }

  /**
    A requested `userId` without a profile maps to the placeholder named
    "Unknown" with an empty email; one with profiles maps to the last of them.
   */
  lemma JoinedEntryCases(users: seq<UserDoc>, userIds: seq<string>, userId: string)
    requires userId in userIds
    ensures userId in UsersMap(users, userIds)
    ensures (forall u :: u in users ==> u.userId != userId) ==>
              UsersMap(users, userIds)[userId].Name() == "Unknown" && UsersMap(users, userIds)[userId].Email() == ""
    ensures forall i :: 0 <= i < |users| && users[i].userId == userId
                        && (forall j :: i < j < |users| ==> users[j].userId != userId)
                        ==> UsersMap(users, userIds)[userId] == Profile(users[i])
  {
    forall i | 0 <= i < |users| && users[i].userId == userId
                && (forall j :: i < j < |users| ==> users[j].userId != userId)
      ensures UsersMap(users, userIds)[userId] == Profile(users[i])
    {
      var r := LastWithUserId(users, userId);
      assert r.Some? by { assert users[i].userId == userId; }
      var k :| 0 <= k < |users| && users[k] == r.value && r.value.userId == userId
               && forall j :: k < j < |users| ==> users[j].userId != userId;
      assert k == i;
    }
  }

  // ------------------------------------------------------------------ transitions

  /** The applicant's profile, the first one with `userId`, with its approval flag set. */
  function MirrorApproval(users: seq<UserDoc>, userId: string, approved: bool): seq<UserDoc>
  {
    UpdateFirst(users, (u: UserDoc) => u.userId == userId, (u: UserDoc) => u.(isWholesaleApproved := approved))
  }

  /** Looking the profile up by `userId` and updating it by its own id touches the same profile. */
  lemma MirrorByDocumentId(users: seq<UserDoc>, userId: string, approved: bool)
    requires UniqueIds(users, UserDocId)
    requires UsersWithUserId(users, userId) != []
    ensures SetUserApproval(users, UsersWithUserId(users, userId)[0].id, approved) == MirrorApproval(users, userId, approved)
  {
    var byUserId := (u: UserDoc) => u.userId == userId;
    FilterHead(users, byUserId);
    var i := FirstIndex(users, byUserId).value;
    var docId := users[i].id;
    var byDocId := (u: UserDoc) => u.id == docId;
    var k := FirstIndex(users, byDocId);
    assert k.Some? by { assert byDocId(users[i]); }
    assert k.value == i;
  }

  /** After a mirrored write, the applicant's first profile carries the decision. */
  lemma MirrorSetsFlag(users: seq<UserDoc>, userId: string, approved: bool)
    ensures |MirrorApproval(users, userId, approved)| == |users|
    ensures match FirstIndex(users, (u: UserDoc) => u.userId == userId)
            case None => MirrorApproval(users, userId, approved) == users
            case Some(i) =>
              && MirrorApproval(users, userId, approved)[i] == users[i].(isWholesaleApproved := approved)
              && forall j :: 0 <= j < |users| && j != i ==> MirrorApproval(users, userId, approved)[j] == users[j]
  {
  }

  /** Updating the same element twice with an idempotent change is updating it once. */
  lemma {:induction false} UpdateFirstTwice<T>(docs: seq<T>, p: T -> bool, f: T -> T)
    requires forall x :: p(f(x)) == p(x) && f(f(x)) == f(x)
    ensures UpdateFirst(UpdateFirst(docs, p, f), p, f) == UpdateFirst(docs, p, f)
  {
    match FirstIndex(docs, p)
    case None =>
    case Some(i) =>
      var once := docs[i := f(docs[i])];
      var k := FirstIndex(once, p);
      assert p(once[i]);
      assert k == Some(i);
  }

  /** Approving (or rejecting) twice leaves the store as approving once does. */
  lemma TransitionIdempotent(requests: seq<WholesaleRequest>, users: seq<UserDoc>, request: WholesaleRequest,
                             status: string, reason: string, approved: bool)
    ensures SetRequestStatus(SetRequestStatus(requests, request.id, status, reason), request.id, status, reason)
         == SetRequestStatus(requests, request.id, status, reason)
    ensures MirrorApproval(MirrorApproval(users, request.userId, approved), request.userId, approved)
         == MirrorApproval(users, request.userId, approved)
  {
    UpdateFirstTwice(requests, (r: WholesaleRequest) => r.id == request.id,
                     (r: WholesaleRequest) => r.(status := status, rejectionReason := reason));
    UpdateFirstTwice(users, (u: UserDoc) => u.userId == request.userId,
                     (u: UserDoc) => u.(isWholesaleApproved := approved));
  }

  /**
    The two writes of a decision: the request first; only if that worked, the
    lookup of the applicant's profiles and the flag on the first of them. No
    profile is not an error.
   */
  method ApplyDecision(store: Backend, request: WholesaleRequest, status: string, reason: string, approved: bool)
    returns (ok: bool)
    requires store.Valid()
    modifies store`requests, store`users
    ensures store.Valid()
    ensures ok ==> store.requests == SetRequestStatus(old(store.requests), request.id, status, reason)
    ensures ok ==> store.users == MirrorApproval(old(store.users), request.userId, approved)
    ensures !ok ==> store.users == old(store.users)
    ensures !ok ==> store.requests == old(store.requests)
                    || store.requests == SetRequestStatus(old(store.requests), request.id, status, reason)
  {
    ok := store.UpdateRequestStatus(request.id, status, reason);
    if !ok {
      return;
    }
    var userList := store.ListUsersWithUserId(request.userId);
    if userList.None? {
      ok := false;
      return;
    }
    if |userList.value| > 0 {
      MirrorByDocumentId(store.users, request.userId, approved);
      ok := store.UpdateUserApproval(userList.value[0].id, approved);
    } else {
      assert FirstIndex(store.users, (u: UserDoc) => u.userId == request.userId).None?;
    }
  }

  // ------------------------------------------------------------------ attachments

  /** An attachment row of the details modal; `None` is the empty URL. */
  datatype Attachment = Attachment(key: string, url: Option<Href>)

  /** The positional label: the first two documents are fixed, the rest numbered from 1. */
  function AttachmentLabel(index: nat): string
  {
    if index == 0 then "Photo ID"
    else if index == 1 then "Utility Bill"
    else "Other Document " + NatToString(index - 1)
  }

  /** The label of an attachment whose URL could not be derived. */
  function FallbackLabel(index: nat): string
  {
    "Attachment " + NatToString(index + 1)
  }

  /** No two positions get the same label. */
  lemma AttachmentLabelsDistinct(i: nat, j: nat)
    requires i != j
    ensures AttachmentLabel(i) != AttachmentLabel(j)
  {
    if i >= 2 && j >= 2 {
      var pre := "Other Document ";
      if AttachmentLabel(i) == AttachmentLabel(j) {
        assert AttachmentLabel(i)[|pre|..] == NatToString(i - 1);
        assert AttachmentLabel(j)[|pre|..] == NatToString(j - 1);
        NatToStringInjective(i - 1, j - 1);
      }
    } else if i >= 2 || j >= 2 {
      var k := if i >= 2 then i else j;
      assert AttachmentLabel(k)[0] == 'O';
    }
  }

  /** The third attachment is the first "other" document. */
  lemma ThirdAttachmentLabel()
    ensures AttachmentLabel(2) == "Other Document 1"
    ensures FallbackLabel(2) == "Attachment 3"
  {
  }

  /** Row `index` for file `fileId`: labelled with its URL, or the fallback with none. */
  predicate Resolved(a: Attachment, fileId: string, index: nat)
  {
    a == Attachment(AttachmentLabel(index), Some(FileView(fileId)))
    || a == Attachment(FallbackLabel(index), None)
  }

  /** `parseAttachments`: one row per file id, in input order; a failing item does not stop the rest. */
  method ParseAttachments(store: Backend, attachments: Option<seq<string>>) returns (files: seq<Attachment>)
    ensures attachments.None? ==> files == []
    ensures attachments.Some? ==> |files| == |attachments.value|
    ensures attachments.Some? ==> forall i :: 0 <= i < |files| ==> Resolved(files[i], attachments.value[i], i)
  {
    if attachments.None? || attachments.value == [] {
      return [];
    }
    var ids := attachments.value;
    files := [];
    var i := 0;
    while i < |ids|
      invariant 0 <= i <= |ids| && |files| == i
      invariant forall k :: 0 <= k < i ==> Resolved(files[k], ids[k], k)
    {
      var url := store.FileViewUrl(ids[i]);
      var entry := match url
        case Some(href) => Attachment(AttachmentLabel(i), Some(href))
        case None => Attachment(FallbackLabel(i), None);
      files := files + [entry];
      i := i + 1;
    }
  }

  // ------------------------------------------------------------------ filtering and actions

  /** The status tab `tab` lists: '1' pending, '2' approved, '3' rejected, any other tab all. */
  predicate TabShows(tab: string, status: string)
  {
    if tab == "1" then status == PENDING
    else if tab == "2" then status == APPROVED
    else if tab == "3" then status == REJECTED
    else true
  }

  function ByTab(requests: seq<WholesaleRequest>, tab: string): seq<WholesaleRequest>
  {
    match tab
    case "1" => Filter(requests, (r: WholesaleRequest) => r.status == PENDING)
    case "2" => Filter(requests, (r: WholesaleRequest) => r.status == APPROVED)
    case "3" => Filter(requests, (r: WholesaleRequest) => r.status == REJECTED)
    case _ => requests
  }

  /** The request's applicant has a non-empty name containing `term`, ignoring case. */
  predicate SearchHit(usersData: map<string, UserEntry>, term: string, r: WholesaleRequest)
  {
    r.userId in usersData && usersData[r.userId].Name() != ""
    && Contains(ToLower(usersData[r.userId].Name()), ToLower(term))
  }

  /** `filteredRequests`: the tab's requests, narrowed by a non-empty search term. */
  function FilteredRequests(requests: seq<WholesaleRequest>, usersData: map<string, UserEntry>,
                            tab: string, term: string): seq<WholesaleRequest>
  {
    var shown := ByTab(requests, tab);
    if term == "" then shown else Filter(shown, (r: WholesaleRequest) => SearchHit(usersData, term, r))
  }

  /** A request is shown exactly when its tab lists it and the search, if any, hits. */
  lemma FilteredMembership(requests: seq<WholesaleRequest>, usersData: map<string, UserEntry>,
                           tab: string, term: string, r: WholesaleRequest)
    ensures r in FilteredRequests(requests, usersData, tab, term)
            <==> r in requests && TabShows(tab, r.status) && (term == "" || SearchHit(usersData, term, r))
  {
  }

  /** Filtering keeps the listing order: it distributes over concatenation. */
  lemma FilteredKeepsOrder(a: seq<WholesaleRequest>, b: seq<WholesaleRequest>, usersData: map<string, UserEntry>,
                           tab: string, term: string)
    ensures FilteredRequests(a + b, usersData, tab, term)
         == FilteredRequests(a, usersData, tab, term) + FilteredRequests(b, usersData, tab, term)
  {
    ByTabKeepsOrder(a, b, tab);
    if term != "" {
      FilterConcat(ByTab(a, tab), ByTab(b, tab), (r: WholesaleRequest) => SearchHit(usersData, term, r));
    }
  }

  /** The tab filter distributes over concatenation. */
  lemma ByTabKeepsOrder(a: seq<WholesaleRequest>, b: seq<WholesaleRequest>, tab: string)
    ensures ByTab(a + b, tab) == ByTab(a, tab) + ByTab(b, tab)
  {
    if tab == "1" {
      FilterConcat(a, b, (r: WholesaleRequest) => r.status == PENDING);
    } else if tab == "2" {
      FilterConcat(a, b, (r: WholesaleRequest) => r.status == APPROVED);
    } else if tab == "3" {
      FilterConcat(a, b, (r: WholesaleRequest) => r.status == REJECTED);
    }
  }

  /** Two search terms that differ only in letter case show the same requests. */
  lemma {:induction false} SearchIgnoresCase(requests: seq<WholesaleRequest>, usersData: map<string, UserEntry>,
                                            tab: string, t1: string, t2: string)
    requires ToLower(t1) == ToLower(t2)
    ensures FilteredRequests(requests, usersData, tab, t1) == FilteredRequests(requests, usersData, tab, t2)
  {
    if t1 != "" && t2 != "" {
      SameFilter(ByTab(requests, tab),
                 (r: WholesaleRequest) => SearchHit(usersData, t1, r),
                 (r: WholesaleRequest) => SearchHit(usersData, t2, r));
    }
  }

  lemma {:induction false} SameFilter<T(!new)>(s: seq<T>, p: T -> bool, q: T -> bool)
    requires forall x :: p(x) == q(x)
    ensures Filter(s, p) == Filter(s, q)
  {
    if s != [] {
      SameFilter(s[1..], p, q);
    }
  }

  datatype Action = ViewDetails | Approve | Reject | UndoRejection

  /** The status a decision action moves a request to. */
  function Target(a: Action): string
    requires a != ViewDetails
  {
    if a == Reject then REJECTED else APPROVED
  }

  /**
    The buttons of a row. Details are always offered; a pending request can
    be approved or rejected, a rejected one approved again (undo), an approved
    one rejected; every offered decision moves the request to another status.
   */
  function ActionsFor(status: string): (actions: seq<Action>)
    ensures |actions| >= 1 && actions[0] == ViewDetails
    ensures forall a :: a in actions && a != ViewDetails ==> Target(a) != status
    ensures Approve in actions <==> status == PENDING
    ensures UndoRejection in actions <==> status == REJECTED
    ensures Reject in actions <==> status == PENDING || status == APPROVED
    ensures status !in {PENDING, APPROVED, REJECTED} ==> actions == [ViewDetails]
  {
    [ViewDetails]
    + (if status == PENDING then [Approve, Reject] else [])
    + (if status == REJECTED then [UndoRejection] else [])
    + (if status == APPROVED then [Reject] else [])
  }

  // ------------------------------------------------------------------ the page

  datatype FetchResult = RequestsFailed | UsersFailed | Fetched

  const FETCH_FAILED := "Failed to fetch wholesale requests."
  const APPROVED_OK := "Request approved successfully."
  const APPROVE_FAILED := "Failed to approve request."
  const REJECTED_OK := "Request rejected successfully."
  const REJECT_FAILED := "Failed to reject request."

  class WholesalePage {
    const store: Backend
    var requests: seq<WholesaleRequest>
    var usersData: map<string, UserEntry>
    var rejectModal: bool
    var selectedRequest: Option<WholesaleRequest>
    var rejectReason: string
    var searchTerm: string
    var activeTab: string
    var viewModal: bool
    var selectedRequestForView: Option<WholesaleRequest>
    var attachments: seq<Attachment>

    constructor (store: Backend)
      ensures this.store == store
      ensures requests == [] && usersData == map[] && attachments == []
      ensures !rejectModal && selectedRequest == None && rejectReason == "" && searchTerm == "" && activeTab == "1"
      ensures !viewModal && selectedRequestForView == None
    {
      this.store := store;
      requests, usersData, attachments := [], map[], [];
      rejectModal, selectedRequest, rejectReason, searchTerm, activeTab := false, None, "", "", "1";
      viewModal, selectedRequestForView := false, None;
    }

    /** The rows on screen. */
    function Shown(): seq<WholesaleRequest>
      reads this
    {
      FilteredRequests(requests, usersData, activeTab, searchTerm)
    }

    /** The page state a fetch can leave behind, starting from `requests0` and `users0`. */
    ghost predicate AfterFetch(result: FetchResult, requests0: seq<WholesaleRequest>, users0: map<string, UserEntry>)
      reads this, store
    {
      match result
      case RequestsFailed => requests == requests0 && usersData == users0
      case UsersFailed => requests == Prefix(store.requests, FETCH_LIMIT) && usersData == users0
      case Fetched =>
        && requests == Prefix(store.requests, FETCH_LIMIT)
        && usersData == UsersMap(Prefix(UsersWithUserIdIn(store.users, UserIdsOf(requests)), FETCH_LIMIT), UserIdsOf(requests))
    }

    /**
      `fetchWholesaleRequests`: the requests are stored as soon as they arrive,
      so a failing profile lookup leaves new requests beside the old user map.
     */
    method Fetch() returns (result: FetchResult, notice: Notice)
      modifies this`requests, this`usersData
      ensures AfterFetch(result, old(requests), old(usersData))
      ensures notice == if result == Fetched then Quiet else Failure(FETCH_FAILED)
    {
      var response := store.ListRequests(FETCH_LIMIT);
      if response.None? {
        return RequestsFailed, Failure(FETCH_FAILED);
      }
      requests := response.value;
      var userIds := UserIdsOf(requests);
      var userList := store.ListUsersIn(userIds, FETCH_LIMIT);
      if userList.None? {
        return UsersFailed, Failure(FETCH_FAILED);
      }
      usersData := BuildUsersMap(userList.value, userIds);
      return Fetched, Quiet;
    }

    /**
      `handleApprove`: approve, mirror `true` onto the profile, and refetch on
      success; `refetch` is the refetch's own toast, `Quiet` when there was none.
     */
    method HandleApprove(request: WholesaleRequest) returns (notice: Notice, refetch: Notice)
      requires store.Valid()
      modifies store`requests, store`users, this`requests, this`usersData
      ensures store.Valid()
      ensures notice == Success(APPROVED_OK) || notice == Failure(APPROVE_FAILED)
      ensures notice.Success? ==> store.requests == SetRequestStatus(old(store.requests), request.id, APPROVED, "")
      ensures notice.Success? ==> store.users == MirrorApproval(old(store.users), request.userId, true)
      ensures notice.Success? ==> exists result :: && AfterFetch(result, old(requests), old(usersData))
                                                    && refetch == if result == Fetched then Quiet else Failure(FETCH_FAILED)
      ensures notice.Failure? ==> store.users == old(store.users) && requests == old(requests) && usersData == old(usersData)
                                  && refetch == Quiet
      ensures notice.Failure? ==> store.requests == old(store.requests)
                                  || store.requests == SetRequestStatus(old(store.requests), request.id, APPROVED, "")
    {
      var ok := ApplyDecision(store, request, APPROVED, "", true);
      if !ok {
        return Failure(APPROVE_FAILED), Quiet;
      }
      var result;
      result, refetch := Fetch();
      notice := Success(APPROVED_OK);
    }

    /** `handleReject`: remember the request and open the reason dialog. */
    method HandleReject(request: WholesaleRequest)
      modifies this`selectedRequest, this`rejectModal
      ensures selectedRequest == Some(request) && rejectModal
    {
      selectedRequest := Some(request);
      rejectModal := true;
    }

    /**
      `confirmReject`: reject with the entered reason, mirror `false` onto the
      profile; on success close the dialog, clear the reason and refetch.
      `refetch` is the refetch's own toast, `Quiet` when there was none.
     */
    method ConfirmReject() returns (notice: Notice, refetch: Notice)
      requires store.Valid()
      modifies store`requests, store`users, this`requests, this`usersData, this`rejectModal, this`rejectReason
      ensures store.Valid()
      ensures notice == Success(REJECTED_OK) || notice == Failure(REJECT_FAILED)
      ensures notice.Success? ==> selectedRequest.Some?
      ensures notice.Success? ==> store.requests == SetRequestStatus(old(store.requests), selectedRequest.value.id, REJECTED, old(rejectReason))
      ensures notice.Success? ==> store.users == MirrorApproval(old(store.users), selectedRequest.value.userId, false)
      ensures notice.Success? ==> !rejectModal && rejectReason == ""
      ensures notice.Success? ==> exists result :: && AfterFetch(result, old(requests), old(usersData))
                                                    && refetch == if result == Fetched then Quiet else Failure(FETCH_FAILED)
      ensures notice.Failure? ==> store.users == old(store.users) && requests == old(requests) && usersData == old(usersData)
                                  && refetch == Quiet
      ensures notice.Failure? ==> rejectModal == old(rejectModal) && rejectReason == old(rejectReason)
      ensures notice.Failure? ==> store.requests == old(store.requests)
                                  || (selectedRequest.Some? && store.requests == SetRequestStatus(old(store.requests), selectedRequest.value.id, REJECTED, old(rejectReason)))
    {
      if selectedRequest.None? {
        return Failure(REJECT_FAILED), Quiet;
      }
      var ok := ApplyDecision(store, selectedRequest.value, REJECTED, rejectReason, false);
      if !ok {
        return Failure(REJECT_FAILED), Quiet;
      }
      rejectModal := false;
      rejectReason := "";
      var result;
      result, refetch := Fetch();
      notice := Success(REJECTED_OK);
    }

    /**
      The reason dialog's Cancel: it only closes the dialog, so the request
      and the reason typed so far are still there when it next opens.
     */
    method CancelReject()
      modifies this`rejectModal
      ensures !rejectModal
    {
      rejectModal := false;
    }

    /** `handleViewDetails` and the effect it triggers: the attachments of the request, resolved. */
    method HandleViewDetails(request: WholesaleRequest)
      modifies this`selectedRequestForView, this`viewModal, this`attachments
      ensures selectedRequestForView == Some(request) && viewModal
      ensures request.attachments.None? ==> attachments == []
      ensures request.attachments.Some? ==> |attachments| == |request.attachments.value|
      ensures request.attachments.Some? ==>
                forall i :: 0 <= i < |attachments| ==> Resolved(attachments[i], request.attachments.value[i], i)
    {
      selectedRequestForView := Some(request);
      viewModal := true;
      attachments := ParseAttachments(store, request.attachments);
    }

    /** The details dialog's Close: the request and its attachments stay. */
    method CloseView()
      modifies this`viewModal
      ensures !viewModal
    {
      viewModal := false;
    }
  }
}

/**
  The hosted backend the dashboard talks to, replaced by an in-memory store:
  each collection is the sequence of its documents in listing order, the file
  bucket is the set of its file ids, and every SDK call may fail for reasons
  outside the model (network, permissions, quotas), which `Attempt` stands for.
 */
module Store {
  import opened Common

  datatype WholesaleRequest = WholesaleRequest(
    id: string, userId: string, firstName: string, lastName: string,
    attachments: Option<seq<string>>, status: string, rejectionReason: string)

  datatype UserDoc = UserDoc(id: string, userId: string, name: string, email: string, isWholesaleApproved: bool)

  /** A boolean attribute as a document carries it: not at all, explicitly `null`, or a value. */
  datatype BoolAttr = Missing | Null | Stored(value: bool)

  /**
    A voucher as stored; a `None` counter is one the document does not carry
    or carries as `null`, which the page treats alike.
   */
  datatype VoucherDoc = VoucherDoc(
    id: string, code: string, discountValue: int,
    count: Option<int>, usageLimit: Option<int>, valid: BoolAttr)

  datatype SubscriberDoc = SubscriberDoc(id: string, email: string)

  datatype Banner = Banner(id: string, title: string, subtitle: string, imageId: string)

  /** The site-images document; the empty string is a slot without a file. */
  datatype ImagesDoc = ImagesDoc(
    id: string, imageId: string,
    loginImage: string, wholesaleImage: string, contactImage: string, policyImage: string)

  datatype GeneralData = GeneralData(
    id: string, logo: string, facebook: string, twitter: string,
    instagram: string, linkedin: string, terms: string)

  /** The page size the backend uses when a listing gives no limit. */
  const DEFAULT_LIMIT: nat := 25

  function RequestId(r: WholesaleRequest): string { r.id }
  function UserDocId(u: UserDoc): string { u.id }
  function VoucherId(v: VoucherDoc): string { v.id }
  function SubscriberId(s: SubscriberDoc): string { s.id }
  function BannerId(b: Banner): string { b.id }
  function ImagesId(d: ImagesDoc): string { d.id }
  function GeneralDataId(d: GeneralData): string { d.id }

  /** No two documents of `docs` share an id. */
  predicate UniqueIds<T>(docs: seq<T>, idOf: T -> string)
  {
    forall i, j :: 0 <= i < j < |docs| ==> idOf(docs[i]) != idOf(docs[j])
  }

  /** The ids of `docs`, as a set. */
  function IdSet<T>(docs: seq<T>, idOf: T -> string): (ids: set<string>)
    ensures forall i :: 0 <= i < |docs| ==> idOf(docs[i]) in ids
    ensures forall id :: id in ids ==> exists i :: 0 <= i < |docs| && idOf(docs[i]) == id
  {
    set i | 0 <= i < |docs| :: idOf(docs[i])
  }

  /** Removing documents keeps the ids unique. */
  lemma {:induction false} FilterKeepsUniqueIds<T(!new)>(docs: seq<T>, p: T -> bool, idOf: T -> string)
    requires UniqueIds(docs, idOf)
    ensures UniqueIds(Filter(docs, p), idOf)
  {
    if docs != [] {
      FilterKeepsUniqueIds(docs[1..], p, idOf);
      var rest := Filter(docs[1..], p);
      forall k | 0 <= k < |rest| ensures idOf(rest[k]) != idOf(docs[0]) {
        assert rest[k] in docs[1..];
      }
    }
  }

  /** `docs` with the first document satisfying `p` replaced by `f` of it. */
  function UpdateFirst<T>(docs: seq<T>, p: T -> bool, f: T -> T): (r: seq<T>)
    ensures |r| == |docs|
  {
    match FirstIndex(docs, p)
    case None => docs
    case Some(i) => docs[i := f(docs[i])]
  }

  /** `update(id, {status, rejectionReason})` on the requests collection. */
  function SetRequestStatus(requests: seq<WholesaleRequest>, id: string, status: string, reason: string): seq<WholesaleRequest>
  {
    UpdateFirst(requests, (r: WholesaleRequest) => r.id == id,
                (r: WholesaleRequest) => r.(status := status, rejectionReason := reason))
  }

  /** `update(docId, {isWholesaleApproved})` on the users collection. */
  function SetUserApproval(users: seq<UserDoc>, docId: string, approved: bool): seq<UserDoc>
  {
    UpdateFirst(users, (u: UserDoc) => u.id == docId, (u: UserDoc) => u.(isWholesaleApproved := approved))
  }

  /** `list([Query.equal('userId', ids)])`: the users whose `userId` is one of `ids`. */
  function UsersWithUserIdIn(users: seq<UserDoc>, ids: seq<string>): seq<UserDoc>
  {
    Filter(users, (u: UserDoc) => u.userId in ids)
  }

  /** `list([Query.equal('userId', userId)])`. */
  function UsersWithUserId(users: seq<UserDoc>, userId: string): seq<UserDoc>
  {
    Filter(users, (u: UserDoc) => u.userId == userId)
  }

  function SetVoucher(vouchers: seq<VoucherDoc>, id: string, code: string, discountValue: int, usageLimit: int, valid: bool): seq<VoucherDoc>
  {
    UpdateFirst(vouchers, (v: VoucherDoc) => v.id == id,
                (v: VoucherDoc) => v.(code := code, discountValue := discountValue,
                                      usageLimit := Some(usageLimit), valid := Stored(valid)))
  }

  function WithoutVoucher(vouchers: seq<VoucherDoc>, id: string): seq<VoucherDoc>
  {
    Filter(vouchers, (v: VoucherDoc) => v.id != id)
  }

  function WithoutSubscriber(subscribers: seq<SubscriberDoc>, id: string): seq<SubscriberDoc>
  {
    Filter(subscribers, (s: SubscriberDoc) => s.id != id)
  }

  function WithoutBanner(banners: seq<Banner>, id: string): seq<Banner>
  {
    Filter(banners, (b: Banner) => b.id != id)
  }

  function SetBanner(banners: seq<Banner>, id: string, title: string, subtitle: string, imageId: string): seq<Banner>
  {
    UpdateFirst(banners, (b: Banner) => b.id == id,
                (b: Banner) => b.(title := title, subtitle := subtitle, imageId := imageId))
  }

  /** `update(id, {loginImage, wholesaleImage, contactImage, policyImage})`. */
  function SetImageSlots(docs: seq<ImagesDoc>, id: string, login: string, wholesale: string, contact: string, policy: string): seq<ImagesDoc>
  {
    UpdateFirst(docs, (d: ImagesDoc) => d.id == id,
                (d: ImagesDoc) => d.(loginImage := login, wholesaleImage := wholesale,
                                     contactImage := contact, policyImage := policy))
  }

  /** The page of banners after the cursor, or `None` when the cursor names no banner. */
  function BannersAfter(banners: seq<Banner>, cursor: Option<string>, limit: nat): Option<seq<Banner>>
  {
    match cursor
    case None => Some(Prefix(banners, limit))
    case Some(c) =>
      match FirstIndex(banners, (b: Banner) => b.id == c)
      case None => None
      case Some(i) => Some(Prefix(banners[i + 1..], limit))
  }

  /** Whether a call to the backend goes through. */
  method Attempt() returns (ok: bool)
  {
    ok :| true;
  }

  /** A fresh non-empty identifier, as the backend assigns to new documents and files. */
  method NewId(used: set<string>) returns (id: string)
    ensures id != "" && id !in used
  {
    FreshIdExists(used);
    id :| id != "" && id !in used;
  }

  class Backend {
    var requests: seq<WholesaleRequest>
    var users: seq<UserDoc>
    var vouchers: seq<VoucherDoc>
    var subscribers: seq<SubscriberDoc>
    var banners: seq<Banner>
    var generalImages: seq<ImagesDoc>
    var heroSection: seq<ImagesDoc>
    var generalData: seq<GeneralData>
    var files: set<string>

    /** Document ids are unique within each collection, and banner ids (used as cursors) are non-empty. */
    ghost predicate Valid()
      reads this
    {
      && UniqueIds(requests, RequestId)
      && UniqueIds(users, UserDocId)
      && UniqueIds(vouchers, VoucherId)
      && UniqueIds(subscribers, SubscriberId)
      && UniqueIds(banners, BannerId)
      && (forall i :: 0 <= i < |banners| ==> banners[i].id != "")
      && UniqueIds(generalImages, ImagesId)
      && UniqueIds(heroSection, ImagesId)
      && UniqueIds(generalData, GeneralDataId)
    }

    constructor (requests: seq<WholesaleRequest>, users: seq<UserDoc>, vouchers: seq<VoucherDoc>,
                 subscribers: seq<SubscriberDoc>, banners: seq<Banner>, generalImages: seq<ImagesDoc>,
                 heroSection: seq<ImagesDoc>, generalData: seq<GeneralData>, files: set<string>)
      ensures this.requests == requests && this.users == users && this.vouchers == vouchers
      ensures this.subscribers == subscribers && this.banners == banners
      ensures this.generalImages == generalImages && this.heroSection == heroSection
      ensures this.generalData == generalData && this.files == files
    {
      this.requests, this.users, this.vouchers := requests, users, vouchers;
      this.subscribers, this.banners := subscribers, banners;
      this.generalImages, this.heroSection := generalImages, heroSection;
      this.generalData, this.files := generalData, files;
    }

    // ------------------------------------------------------------ wholesale requests and users

    method ListRequests(limit: nat) returns (r: Option<seq<WholesaleRequest>>)
      ensures r.Some? ==> r.value == Prefix(requests, limit)
    {
      var ok := Attempt();
      r := if ok then Some(Prefix(requests, limit)) else None;
    }

    method UpdateRequestStatus(id: string, status: string, reason: string) returns (ok: bool)
      requires Valid()
      modifies this`requests
      ensures Valid()
      ensures ok ==> id in IdSet(old(requests), RequestId)
      ensures requests == if ok then SetRequestStatus(old(requests), id, status, reason) else old(requests)
    {
      ok := Attempt();
      ok := ok && id in IdSet(requests, RequestId);
      if ok {
        requests := SetRequestStatus(requests, id, status, reason);
        assert forall i :: 0 <= i < |requests| ==> requests[i].id == old(requests)[i].id;
      }
    }

    method ListUsersIn(ids: seq<string>, limit: nat) returns (r: Option<seq<UserDoc>>)
      ensures r.Some? ==> r.value == Prefix(UsersWithUserIdIn(users, ids), limit)
    {
      var ok := Attempt();
      r := if ok then Some(Prefix(UsersWithUserIdIn(users, ids), limit)) else None;
    }

    /** The matches of an equality query; only their count and the first are ever read. */
    method ListUsersWithUserId(userId: string) returns (r: Option<seq<UserDoc>>)
      ensures r.Some? ==> r.value == UsersWithUserId(users, userId)
    {
      var ok := Attempt();
      r := if ok then Some(UsersWithUserId(users, userId)) else None;
    }

    method UpdateUserApproval(docId: string, approved: bool) returns (ok: bool)
      requires Valid()
      modifies this`users
      ensures Valid()
      ensures ok ==> docId in IdSet(old(users), UserDocId)
      ensures users == if ok then SetUserApproval(old(users), docId, approved) else old(users)
    {
      ok := Attempt();
      ok := ok && docId in IdSet(users, UserDocId);
      if ok {
        users := SetUserApproval(users, docId, approved);
        assert forall i :: 0 <= i < |users| ==> users[i].id == old(users)[i].id;
      }
    }

    /** `getFileView(fileId)`, which may throw. */
    method FileViewUrl(fileId: string) returns (r: Option<Href>)
      ensures r.Some? ==> r.value == FileView(fileId)
    {
      var ok := Attempt();
      r := if ok then Some(FileView(fileId)) else None;
    }

    // ------------------------------------------------------------ vouchers

    method ListVouchers() returns (r: Option<seq<VoucherDoc>>)
      ensures r.Some? ==> r.value == Prefix(vouchers, DEFAULT_LIMIT)
    {
      var ok := Attempt();
      r := if ok then Some(Prefix(vouchers, DEFAULT_LIMIT)) else None;
    }

    method CreateVoucher(code: string, discountValue: int, count: int, usageLimit: int, valid: bool) returns (id: Option<string>)
      requires Valid()
      modifies this`vouchers
      ensures Valid()
      ensures id.Some? ==> id.value !in IdSet(old(vouchers), VoucherId)
      ensures vouchers == if id.Some?
        then old(vouchers) + [VoucherDoc(id.value, code, discountValue, Some(count), Some(usageLimit), Stored(valid))]
        else old(vouchers)
    {
      var ok := Attempt();
      if ok {
        var newId := NewId(IdSet(vouchers, VoucherId));
        vouchers := vouchers + [VoucherDoc(newId, code, discountValue, Some(count), Some(usageLimit), Stored(valid))];
        id := Some(newId);
      } else {
        id := None;
      }
    }

    method UpdateVoucher(id: string, code: string, discountValue: int, usageLimit: int, valid: bool) returns (ok: bool)
      requires Valid()
      modifies this`vouchers
      ensures Valid()
      ensures ok ==> id in IdSet(old(vouchers), VoucherId)
      ensures vouchers == if ok then SetVoucher(old(vouchers), id, code, discountValue, usageLimit, valid) else old(vouchers)
    {
      ok := Attempt();
      ok := ok && id in IdSet(vouchers, VoucherId);
      if ok {
        vouchers := SetVoucher(vouchers, id, code, discountValue, usageLimit, valid);
        assert forall i :: 0 <= i < |vouchers| ==> vouchers[i].id == old(vouchers)[i].id;
      }
    }

    method DeleteVoucher(id: string) returns (ok: bool)
      requires Valid()
      modifies this`vouchers
      ensures Valid()
      ensures ok ==> id in IdSet(old(vouchers), VoucherId)
      ensures vouchers == if ok then WithoutVoucher(old(vouchers), id) else old(vouchers)
    {
      ok := Attempt();
      ok := ok && id in IdSet(vouchers, VoucherId);
      if ok {
        FilterKeepsUniqueIds(vouchers, (v: VoucherDoc) => v.id != id, VoucherId);
        vouchers := WithoutVoucher(vouchers, id);
      }
    }

    // ------------------------------------------------------------ subscribers

    /** `list([Query.limit(limit), Query.offset(offset)])`. */
    method ListSubscribers(limit: nat, offset: nat) returns (r: Option<seq<SubscriberDoc>>)
      ensures r.Some? ==> r.value == if offset <= |subscribers| then Prefix(subscribers[offset..], limit) else []
    {
      var ok := Attempt();
      r := if !ok then None else if offset <= |subscribers| then Some(Prefix(subscribers[offset..], limit)) else Some([]);
    }

    method DeleteSubscriber(id: string) returns (ok: bool)
      requires Valid()
      modifies this`subscribers
      ensures Valid()
      ensures ok ==> id in IdSet(old(subscribers), SubscriberId)
      ensures subscribers == if ok then WithoutSubscriber(old(subscribers), id) else old(subscribers)
    {
      ok := Attempt();
      ok := ok && id in IdSet(subscribers, SubscriberId);
      if ok {
        FilterKeepsUniqueIds(subscribers, (s: SubscriberDoc) => s.id != id, SubscriberId);
        subscribers := WithoutSubscriber(subscribers, id);
      }
    }

    // ------------------------------------------------------------ banners

    /** `list([Query.limit(limit)] + [Query.cursorAfter(cursor)])`; an unknown cursor is an error. */
    method ListBanners(limit: nat, cursor: Option<string>) returns (r: Option<seq<Banner>>)
      ensures r.Some? ==> BannersAfter(banners, cursor, limit) == r
    {
      var ok := Attempt();
      r := if ok then BannersAfter(banners, cursor, limit) else None;
    }

    method GetBanner(id: string) returns (r: Option<Banner>)
      ensures r.Some? ==> r.value in banners && r.value.id == id
    {
      var ok := Attempt();
      var i := FirstIndex(banners, (b: Banner) => b.id == id);
      r := if ok && i.Some? then Some(banners[i.value]) else None;
    }

    method CreateBanner(title: string, subtitle: string, imageId: string) returns (id: Option<string>)
      requires Valid()
      modifies this`banners
      ensures Valid()
      ensures id.Some? ==> id.value !in IdSet(old(banners), BannerId)
      ensures banners == if id.Some? then old(banners) + [Banner(id.value, title, subtitle, imageId)] else old(banners)
    {
      var ok := Attempt();
      if ok {
        var newId := NewId(IdSet(banners, BannerId));
        banners := banners + [Banner(newId, title, subtitle, imageId)];
        id := Some(newId);
      } else {
        id := None;
      }
    }

    method UpdateBanner(id: string, title: string, subtitle: string, imageId: string) returns (ok: bool)
      requires Valid()
      modifies this`banners
      ensures Valid()
      ensures ok ==> id in IdSet(old(banners), BannerId)
      ensures banners == if ok then SetBanner(old(banners), id, title, subtitle, imageId) else old(banners)
    {
      ok := Attempt();
      ok := ok && id in IdSet(banners, BannerId);
      if ok {
        banners := SetBanner(banners, id, title, subtitle, imageId);
        assert forall i :: 0 <= i < |banners| ==> banners[i].id == old(banners)[i].id;
      }
    }

    method DeleteBanner(id: string) returns (ok: bool)
      requires Valid()
      modifies this`banners
      ensures Valid()
      ensures ok ==> id in IdSet(old(banners), BannerId)
      ensures banners == if ok then WithoutBanner(old(banners), id) else old(banners)
    {
      ok := Attempt();
      ok := ok && id in IdSet(banners, BannerId);
      if ok {
        FilterKeepsUniqueIds(banners, (b: Banner) => b.id != id, BannerId);
        ghost var before := banners;
        banners := WithoutBanner(banners, id);
        forall i | 0 <= i < |banners| ensures banners[i].id != "" {
          assert banners[i] in before;
        }
      }
    }

    // ------------------------------------------------------------ site images and general data

    method GetGeneralImages(id: string) returns (r: Option<ImagesDoc>)
      ensures r.Some? ==> r.value in generalImages && r.value.id == id
    {
      var ok := Attempt();
      var i := FirstIndex(generalImages, (d: ImagesDoc) => d.id == id);
      r := if ok && i.Some? then Some(generalImages[i.value]) else None;
    }

    method UpdateHeroSection(id: string, login: string, wholesale: string, contact: string, policy: string) returns (ok: bool)
      requires Valid()
      modifies this`heroSection
      ensures Valid()
      ensures ok ==> id in IdSet(old(heroSection), ImagesId)
      ensures heroSection == if ok then SetImageSlots(old(heroSection), id, login, wholesale, contact, policy) else old(heroSection)
    {
      ok := Attempt();
      ok := ok && id in IdSet(heroSection, ImagesId);
      if ok {
        heroSection := SetImageSlots(heroSection, id, login, wholesale, contact, policy);
        assert forall i :: 0 <= i < |heroSection| ==> heroSection[i].id == old(heroSection)[i].id;
      }
    }

    method ListGeneralData() returns (r: Option<seq<GeneralData>>)
      ensures r.Some? ==> r.value == Prefix(generalData, DEFAULT_LIMIT)
    {
      var ok := Attempt();
      r := if ok then Some(Prefix(generalData, DEFAULT_LIMIT)) else None;
    }

    /** Creates a document from `fields`, whose own id is replaced by the one the backend assigns. */
    method CreateGeneralData(fields: GeneralData) returns (r: Option<GeneralData>)
      requires Valid()
      modifies this`generalData
      ensures Valid()
      ensures r.Some? ==> r.value == fields.(id := r.value.id) && r.value.id !in IdSet(old(generalData), GeneralDataId)
      ensures generalData == if r.Some? then old(generalData) + [r.value] else old(generalData)
    {
      var ok := Attempt();
      if ok {
        var newId := NewId(IdSet(generalData, GeneralDataId));
        r := Some(fields.(id := newId));
        generalData := generalData + [r.value];
      } else {
        r := None;
      }
    }

    // ------------------------------------------------------------ file bucket

    /** `createFile(file)`: stores the file under a new id. */
    method CreateFile(file: File) returns (r: Option<string>)
      modifies this`files
      ensures r.Some? ==> r.value != "" && r.value !in old(files)
      ensures files == if r.Some? then old(files) + {r.value} else old(files)
    {
      var ok := Attempt();
      if ok {
        var id := NewId(files);
        files := files + {id};
        r := Some(id);
      } else {
        r := None;
      }
    }

    /** `deleteFile(fileId)`; deleting a file that is not there is an error. */
    method DeleteFile(fileId: string) returns (ok: bool)
      modifies this`files
      ensures ok ==> fileId in old(files)
      ensures files == if ok then old(files) - {fileId} else old(files)
    {
      ok := Attempt();
      ok := ok && fileId in files;
      if ok {
        files := files - {fileId};
      }
    }
  }
}

/**
  The subscribers screen: every subscriber is fetched page by page, rows are
  selected with check boxes, selected or all subscribers are deleted, and
  mail links are built for a reply to one subscriber or to the selection.
 */
module SubscribersList {
  import opened Common
  import opened Store
  import opened UriComponent

  /** A row of the table. */
  datatype Subscriber = Subscriber(id: string, email: string)

  const PAGE_SIZE: nat := 100

  const FETCH_FAILED := "Failed to fetch subscribers. Please try again later."
  const FETCH_FAILED_TOAST := "Failed to fetch subscribers"
  const SELECTED_DELETED := "Selected subscribers deleted successfully"
  const ALL_DELETED := "All subscribers deleted successfully"
  const DELETE_FAILED := "Failed to delete subscribers"
  const NO_SELECTED_EMAILS := "No email addresses found for selected subscribers"
  const NO_EMAIL := "No email address found"

  const SUBJECT := "Your Subject Here"
  const BODY := "Your message here."

  const SELECTED := "selected"
  const ALL := "all"

  // ------------------------------------------------------------------ rows

  function Row(d: SubscriberDoc): Subscriber
  {
    Subscriber(d.id, d.email)
  }

  /** Each document becomes the row of its id and e-mail, in order. */
  function Rows(docs: seq<SubscriberDoc>): (rows: seq<Subscriber>)
    ensures |rows| == |docs|
    ensures forall i :: 0 <= i < |docs| ==> rows[i].id == docs[i].id && rows[i].email == docs[i].email
  {
    seq(|docs|, i requires 0 <= i < |docs| => Row(docs[i]))
  }

  lemma RowsConcat(a: seq<SubscriberDoc>, b: seq<SubscriberDoc>)
    ensures Rows(a + b) == Rows(a) + Rows(b)
  {
  }

  function IdsOf(rows: seq<Subscriber>): (ids: seq<string>)
    ensures |ids| == |rows| && forall i :: 0 <= i < |rows| ==> ids[i] == rows[i].id
  {
    seq(|rows|, i requires 0 <= i < |rows| => rows[i].id)
  }

  /** The store after deleting `ids` one after the other. */
  function WithoutAll(docs: seq<SubscriberDoc>, ids: seq<string>): seq<SubscriberDoc>
  {
    if ids == [] then docs else WithoutSubscriber(WithoutAll(docs, ids[..|ids| - 1]), ids[|ids| - 1])
  }

  /** Deleting a list of ids keeps exactly the documents whose id is not listed. */
  lemma {:induction false} WithoutAllMembership(docs: seq<SubscriberDoc>, ids: seq<string>)
    ensures forall d :: d in WithoutAll(docs, ids) <==> d in docs && d.id !in ids
  {
    if ids != [] {
      var init := ids[..|ids| - 1];
      WithoutAllMembership(docs, init);
      assert ids == init + [ids[|ids| - 1]];
    }
  }

  /** The rows whose id is not among `ids`. */
  function NotSelected(ids: seq<string>): Subscriber -> bool
  {
    (s: Subscriber) => s.id !in ids
  }

  /** The rows left once `ids` are deleted: exactly the unlisted ones, in their order. */
  function Unselected(rows: seq<Subscriber>, ids: seq<string>): (r: seq<Subscriber>)
    ensures forall x :: x in r <==> x in rows && x.id !in ids
  {
    Filter(rows, NotSelected(ids))
  }

  /** Removing rows keeps the others in order: it distributes over concatenation. */
  lemma UnselectedKeepsOrder(a: seq<Subscriber>, b: seq<Subscriber>, ids: seq<string>)
    ensures Unselected(a + b, ids) == Unselected(a, ids) + Unselected(b, ids)
  {
    FilterConcat(a, b, NotSelected(ids));
  }

  // ------------------------------------------------------------------ mail links

  /** The rows whose id is among `ids`. */
  function IsSelected(ids: seq<string>): Subscriber -> bool
  {
    (s: Subscriber) => s.id in ids
  }

  /** The e-mail of each row, in order. */
  function Emails(rows: seq<Subscriber>): (r: seq<string>)
    ensures |r| == |rows| && forall i :: 0 <= i < |rows| ==> r[i] == rows[i].email
  {
    if rows == [] then [] else [rows[0].email] + Emails(rows[1..])
  }

  /** A present e-mail: JavaScript's `!!email` on a string. */
  predicate NonEmpty(e: string)
  {
    e != ""
  }

  /**
    The non-empty e-mails of the selected subscribers, in list order: the
    rows filtered by selection, mapped to their e-mails, filtered by presence.
   */
  function SelectedEmails(rows: seq<Subscriber>, selected: seq<string>): (emails: seq<string>)
    ensures emails == Filter(Emails(Filter(rows, IsSelected(selected))), NonEmpty)
    ensures forall e :: e in emails <==> e != "" && exists r :: r in rows && r.id in selected && r.email == e
  {
    if rows == [] then []
    else
      var rest := SelectedEmails(rows[1..], selected);
      assert forall r :: r in rows <==> r == rows[0] || r in rows[1..];
      var tail := Filter(rows[1..], IsSelected(selected));
      if rows[0].id in selected then
        assert Filter(rows, IsSelected(selected)) == [rows[0]] + tail;
        assert Emails([rows[0]] + tail) == [rows[0].email] + Emails(tail);
        if rows[0].email != "" then [rows[0].email] + rest else rest
      else
        rest
  }

  /** A mail link with the given recipient part and the fixed subject and body fields. */
  function MailLink(to: string, fields: seq<string>): string
  {
    "mailto:" + to + "?" + Join(fields, "&")
  }

  /** The fixed header fields after the recipient: the encoded subject and body. */
  function Fields(subject: string, body: string): seq<string>
  {
    ["subject=" + Encode(subject), "body=" + Encode(body)]
  }

  /** `handleReplyAll`: nothing without an e-mail, else a link whose `bcc` lists them joined by commas. */
  function ReplyAllTarget(rows: seq<Subscriber>, selected: seq<string>): Option<string>
  {
    var emails := SelectedEmails(rows, selected);
    if emails == [] then None
    else Some(MailLink("", ["bcc=" + Encode(Join(emails, ","))] + Fields(SUBJECT, BODY)))
  }

  /** `handleReply`: nothing for an empty e-mail, else a link addressed to it. */
  function ReplyTarget(email: string): Option<string>
  {
    if email == "" then None else Some(MailLink(Encode(email), Fields(SUBJECT, BODY)))
  }

  /** Whatever the subject and body, neither fixed field holds `&`, so neither runs into another. */
  lemma FieldsHaveNoAmpersand(subject: string, body: string)
    ensures forall f :: f in Fields(subject, body) ==> '&' !in f
  {
    EncodedHasNoDelimiters(subject);
    EncodedHasNoDelimiters(body);
  }

  /**
    A reply-all link names no direct recipient and carries three header fields;
    its `bcc` value holds no `&` and decodes to the comma-joined e-mails.
   */
  lemma ReplyAllShape(rows: seq<Subscriber>, selected: seq<string>)
    ensures ReplyAllTarget(rows, selected).None? <==> SelectedEmails(rows, selected) == []
    ensures SelectedEmails(rows, selected) != [] ==>
              exists bcc :: && ReplyAllTarget(rows, selected) == Some(MailLink("", ["bcc=" + bcc] + Fields(SUBJECT, BODY)))
                            && '&' !in bcc && '?' !in bcc
                            && PercentDecode(bcc) == Some(Utf8Of(Join(SelectedEmails(rows, selected), ",")))
  {
    var emails := SelectedEmails(rows, selected);
    if emails != [] {
      var joined := Join(emails, ",");
      var bcc := Encode(joined);
      EncodedHasNoDelimiters(joined);
      DecodeEncode(joined);
      assert ReplyAllTarget(rows, selected) == Some(MailLink("", ["bcc=" + bcc] + Fields(SUBJECT, BODY)));
    }
  }

  /** A reply link's recipient holds no `?` and decodes to the e-mail. */
  lemma ReplyShape(email: string)
    ensures ReplyTarget(email).None? <==> email == ""
    ensures email != "" ==>
              exists to :: && ReplyTarget(email) == Some(MailLink(to, Fields(SUBJECT, BODY)))
                          && '?' !in to && PercentDecode(to) == Some(Utf8Of(email))
  {
    if email != "" {
      EncodedHasNoDelimiters(email);
      DecodeEncode(email);
      assert ReplyTarget(email) == Some(MailLink(Encode(email), Fields(SUBJECT, BODY)));
    }
  }

  // ------------------------------------------------------------------ the page

  class SubscribersPage {
    const store: Backend
    var subscribers: seq<Subscriber>
    var selected: seq<string>
    var deleteModalOpen: bool
    var deleteType: string
    var fetchError: string

    constructor (store: Backend)
      ensures this.store == store
      ensures subscribers == [] && selected == [] && !deleteModalOpen && deleteType == "" && fetchError == ""
    {
      this.store := store;
      subscribers, selected, deleteModalOpen, deleteType, fetchError := [], [], false, "", "";
    }

    /**
      `fetchAllSubscribers`: pages of 100 at offsets 0, 100, 200, ... until one
      comes back short; the rows are all the pages in order, so when no
      request fails they are every stored subscriber, after `n / 100 + 1`
      requests. A failed request empties the list and sets the error.
     */
    method FetchAll() returns (notice: Notice, requests: nat)
      modifies this`subscribers, this`fetchError
      ensures notice == Quiet || notice == Failure(FETCH_FAILED_TOAST)
      ensures notice == Quiet ==> subscribers == Rows(store.subscribers)
                                  && requests == |store.subscribers| / PAGE_SIZE + 1
                                  && fetchError == old(fetchError)
      ensures notice.Failure? ==> subscribers == [] && fetchError == FETCH_FAILED
    {
      var all: seq<SubscriberDoc> := [];
      var offset: nat := 0;
      var more := true;
      requests := 0;
      while more
        invariant more ==> offset <= |store.subscribers| && all == store.subscribers[..offset] && offset == requests * PAGE_SIZE
        invariant !more ==> all == store.subscribers && requests == |store.subscribers| / PAGE_SIZE + 1
        invariant fetchError == old(fetchError)
        decreases if more then |store.subscribers| - offset + 1 else 0
      {
        var page := store.ListSubscribers(PAGE_SIZE, offset);
        if page.None? {
          subscribers := [];
          fetchError := FETCH_FAILED;
          return Failure(FETCH_FAILED_TOAST), requests;
        }
        assert store.subscribers[..offset] + page.value == store.subscribers[..offset + |page.value|];
        all := all + page.value;
        requests := requests + 1;
        more := |page.value| == PAGE_SIZE;
        offset := offset + PAGE_SIZE;
      }
      subscribers := Rows(all);
      return Quiet, requests;
    }

    /** The header check box: checked when as many ids are selected as there are rows, and at least one. */
    predicate HeaderChecked()
      reads this
    {
      |selected| == |subscribers| && |selected| > 0
    }

    /** The header check box's `onChange`: select every row or none. */
    method ToggleAll(checked: bool)
      modifies this`selected
      ensures selected == if checked then IdsOf(subscribers) else []
      ensures checked && subscribers != [] ==> HeaderChecked()
      ensures !checked ==> !HeaderChecked()
    {
      selected := if checked then IdsOf(subscribers) else [];
    }

    /** A row check box's `onChange`: add its id, or drop every occurrence of it. */
    method ToggleRow(id: string, checked: bool)
      modifies this`selected
      ensures checked ==> selected == old(selected) + [id]
      ensures !checked ==> selected == Filter(old(selected), x => x != id)
                           && forall x :: x in selected <==> x in old(selected) && x != id
    {
      if checked {
        selected := selected + [id];
      } else {
        selected := Filter(selected, x => x != id);
      }
    }

    method HandleDeleteSelected()
      modifies this`deleteType, this`deleteModalOpen
      ensures deleteType == SELECTED && deleteModalOpen
    {
      deleteType := SELECTED;
      deleteModalOpen := true;
    }

    method HandleDeleteAll()
      modifies this`deleteType, this`deleteModalOpen
      ensures deleteType == ALL && deleteModalOpen
    {
      deleteType := ALL;
      deleteModalOpen := true;
    }

    /** A row's delete button: select only that row and ask to delete the selection. */
    method HandleDeleteRow(id: string)
      modifies this`selected, this`deleteType, this`deleteModalOpen
      ensures selected == [id] && deleteType == SELECTED && deleteModalOpen
    {
      selected := [id];
      deleteType := SELECTED;
      deleteModalOpen := true;
    }

    method CancelDelete()
      modifies this`deleteType, this`deleteModalOpen
      ensures deleteType == "" && !deleteModalOpen
    {
      deleteModalOpen := false;
      deleteType := "";
    }

    /**
      `confirmDelete`: delete the selected ids (or every listed row), then drop
      them from the list and clear the selection. When a deletion fails the
      list, the selection and the dialog stay as they were, and the store has
      lost the ids deleted before it.
     */
    method ConfirmDelete() returns (notice: Notice)
      requires store.Valid()
      modifies store`subscribers, this`subscribers, this`selected, this`deleteModalOpen
      ensures store.Valid()
      ensures var ids := if old(deleteType) == ALL then IdsOf(old(subscribers)) else old(selected);
              && (notice.Success? ==> store.subscribers == WithoutAll(old(store.subscribers), ids))
              && (notice.Failure? ==> exists k :: 0 <= k < |ids| && store.subscribers == WithoutAll(old(store.subscribers), ids[..k]))
      ensures notice == Success(SELECTED_DELETED) ==>
                old(deleteType) == SELECTED && selected == []
                && subscribers == Unselected(old(subscribers), old(selected))
      ensures notice == Success(ALL_DELETED) ==> old(deleteType) == ALL && subscribers == [] && selected == []
      ensures notice.Success? || notice == Quiet ==> !deleteModalOpen
      ensures notice == Quiet <==> old(deleteType) != SELECTED && old(deleteType) != ALL
      ensures notice == Quiet ==> store.subscribers == old(store.subscribers)
                                  && subscribers == old(subscribers) && selected == old(selected)
      ensures notice.Failure? ==> notice == Failure(DELETE_FAILED)
                                  && subscribers == old(subscribers) && selected == old(selected)
                                  && deleteModalOpen == old(deleteModalOpen)
      ensures notice == Quiet || notice.Failure? || notice == Success(SELECTED_DELETED) || notice == Success(ALL_DELETED)
    {
      if deleteType == SELECTED {
        var ok := DeleteEach(selected);
        if !ok {
          return Failure(DELETE_FAILED);
        }
        subscribers := Unselected(subscribers, selected);
        selected := [];
        notice := Success(SELECTED_DELETED);
      } else if deleteType == ALL {
        var ok := DeleteEach(IdsOf(subscribers));
        if !ok {
          return Failure(DELETE_FAILED);
        }
        subscribers := [];
        selected := [];
        notice := Success(ALL_DELETED);
      } else {
        notice := Quiet;
      }
      deleteModalOpen := false;
    }

    /** The deletions `Promise.all` awaits, issued in order; the first failure stops them. */
    method DeleteEach(ids: seq<string>) returns (ok: bool)
      requires store.Valid()
      modifies store`subscribers
      ensures store.Valid()
      ensures ok ==> store.subscribers == WithoutAll(old(store.subscribers), ids)
      ensures !ok ==> exists k :: 0 <= k < |ids| && store.subscribers == WithoutAll(old(store.subscribers), ids[..k])
    {
      var i := 0;
      while i < |ids|
        invariant 0 <= i <= |ids| && store.Valid()
        invariant store.subscribers == WithoutAll(old(store.subscribers), ids[..i])
      {
        var done := store.DeleteSubscriber(ids[i]);
        if !done {
          return false;
        }
        assert ids[..i + 1][..i] == ids[..i];
        i := i + 1;
      }
      assert ids[..i] == ids;
      return true;
    }

    /** `handleReplyAll`: a warning when no selected subscriber has an e-mail, else the link to open. */
    method ReplyAll() returns (notice: Notice, target: Option<string>)
      ensures target == ReplyAllTarget(subscribers, selected)
      ensures notice == if target.None? then Warning(NO_SELECTED_EMAILS) else Quiet
    {
      target := ReplyAllTarget(subscribers, selected);
      notice := if target.None? then Warning(NO_SELECTED_EMAILS) else Quiet;
    }

    /** `handleReply`: a warning for an empty e-mail, else the link to open. */
    method Reply(email: string) returns (notice: Notice, target: Option<string>)
      ensures target == ReplyTarget(email)
      ensures notice == if email == "" then Warning(NO_EMAIL) else Quiet
    {
      target := ReplyTarget(email);
      notice := if email == "" then Warning(NO_EMAIL) else Quiet;
    }
  }

  /**
    With no repeated id in the selection and none in the list, a checked
    header means every row is selected (and only rows).
   */
  lemma HeaderMeansAllSelected(rows: seq<Subscriber>, selected: seq<string>)
    requires Distinct(selected) && Distinct(IdsOf(rows))
    requires forall x :: x in selected ==> x in IdsOf(rows)
    requires |selected| == |rows| && |selected| > 0
    ensures forall r :: r in rows ==> r.id in selected
  {
    var sel := set x | x in selected;
    var all := set x | x in IdsOf(rows);
    DistinctCard(selected);
    DistinctCard(IdsOf(rows));
    assert sel <= all;
    assert |all - sel| == 0 by {
      assert all == sel + (all - sel);
    }
    assert all == sel;
    forall r | r in rows
      ensures r.id in selected
    {
      var i :| 0 <= i < |rows| && rows[i] == r;
      assert IdsOf(rows)[i] in all;
    }
  }
}

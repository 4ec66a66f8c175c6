/**
  The voucher screen: vouchers are loaded with missing counters defaulted,
  created or edited through a validated form whose code is normalised and
  checked for uniqueness against the loaded list, and deleted.
 */
module EcommerceVouchers {
  import opened Common
  import opened Store

  /** A voucher as the page holds it once loaded; `valid` is whether the table shows it as valid. */
  datatype Voucher = Voucher(id: string, code: string, discountValue: int, count: int, usageLimit: int, valid: bool)

  /** The values of the voucher form; `None` is an empty field. */
  datatype VoucherForm = VoucherForm(code: string, discountValue: Option<int>, usageLimit: Option<int>)

  const DEFAULT_USAGE_LIMIT := 20
  const MIN_CODE_LENGTH := 3
  const MAX_DISCOUNT := 100

  const NOT_UNIQUE := "Voucher code must be unique"
  const FETCH_FAILED := "Failed to fetch vouchers"
  const CREATED := "Voucher created successfully"
  const UPDATED := "Voucher updated successfully"
  const CREATE_FAILED := "Failed to create voucher"
  const UPDATE_FAILED := "Failed to update voucher"
  const DELETED := "Voucher deleted successfully"
  const DELETE_FAILED := "Failed to delete voucher"

  // ------------------------------------------------------------------ loading

  /**
    A voucher document with `count` and `usageLimit` defaulted to 0 and a
    missing `valid` to true; a `null` flag is kept, and the table shows it as "No".
   */
  function LoadVoucher(d: VoucherDoc): Voucher
  {
    Voucher(d.id, d.code, d.discountValue,
            match d.count case Some(c) => c case None => 0,
            match d.usageLimit case Some(u) => u case None => 0,
            match d.valid case Stored(b) => b case Missing => true case Null => false)
  }

  function LoadVouchers(docs: seq<VoucherDoc>): (vs: seq<Voucher>)
    ensures |vs| == |docs| && forall i :: 0 <= i < |docs| ==> vs[i] == LoadVoucher(docs[i])
  {
    seq(|docs|, i requires 0 <= i < |docs| => LoadVoucher(docs[i]))
  }

  /**
    Loading defaults only what is missing: the id, code and discount are kept,
    a missing (or zero) counter reads as 0, and a voucher shows as valid exactly
    when its flag is missing or true: an explicit `null` shows as not valid.
   */
  lemma LoadDefaults(d: VoucherDoc)
    ensures var v := LoadVoucher(d);
            && v.id == d.id && v.code == d.code && v.discountValue == d.discountValue
            && (d.count.None? || d.count == Some(0) <==> v.count == 0)
            && (d.usageLimit.None? || d.usageLimit == Some(0) <==> v.usageLimit == 0)
            && (v.valid <==> d.valid == Missing || d.valid == Stored(true))
  {
  }

  // ------------------------------------------------------------------ the form rules

  /** The form a voucher opens: empty (and a limit of 20) for a new one, its values otherwise. */
  function InitialForm(selected: Option<Voucher>): VoucherForm
  {
    match selected
    case None => VoucherForm("", None, Some(DEFAULT_USAGE_LIMIT))
    case Some(v) =>
      VoucherForm(v.code,
                  if v.discountValue == 0 then None else Some(v.discountValue),
                  Some(if v.usageLimit == 0 then DEFAULT_USAGE_LIMIT else v.usageLimit))
  }

  /** The validation schema: a code of 3 or more characters, a discount in (0, 100], a limit of 0 or more. */
  predicate FormAccepted(f: VoucherForm)
  {
    && f.code != "" && |f.code| >= MIN_CODE_LENGTH
    && f.discountValue.Some? && 0 < f.discountValue.value <= MAX_DISCOUNT
    && (f.usageLimit.None? || f.usageLimit.value >= 0)
  }

  /** The code as saved: trimmed and upper-cased. */
  function NormalizeCode(code: string): string
  {
    ToUpper(Trim(code))
  }

  lemma UpperKeepsSpace(c: char)
    ensures IsSpace(UpperChar(c)) == IsSpace(c)
  {
  }

  /** A string that does not start or end with white space is its own trim. */
  lemma TrimmedIsFixed(s: string)
    requires s == "" || (!IsSpace(s[0]) && !IsSpace(s[|s| - 1]))
    ensures Trim(s) == s
  {
  }

  /** A saved code has no surrounding white space and no lower-case ASCII letter. */
  lemma NormalizedCodeShape(code: string)
    ensures var n := NormalizeCode(code);
            && (n == "" || (!IsSpace(n[0]) && !IsSpace(n[|n| - 1])))
            && forall i :: 0 <= i < |n| ==> !('a' <= n[i] <= 'z')
  {
    var t := Trim(code);
    if t != "" {
      UpperKeepsSpace(t[0]);
      UpperKeepsSpace(t[|t| - 1]);
    }
  }

  /** Normalising a saved code changes nothing. */
  lemma NormalizeCodeIdempotent(code: string)
    ensures NormalizeCode(NormalizeCode(code)) == NormalizeCode(code)
  {
    var n := NormalizeCode(code);
    NormalizedCodeShape(code);
    TrimmedIsFixed(n);
    assert ToUpper(n) == n;
  }

  /**
    The length rule is checked before trimming: a code of three characters,
    two of them leading spaces, is accepted and saved as one character.
   */
  lemma LengthRuleBeforeTrim(c: char)
    requires !IsSpace(c)
    ensures FormAccepted(VoucherForm([' ', ' ', c], Some(MAX_DISCOUNT), None))
    ensures NormalizeCode([' ', ' ', c]) == [UpperChar(c)]
  {
    TrimPadded([' ', ' '], [c]);
    assert [' ', ' '] + [c] == [' ', ' ', c];
    assert ToUpper([c])[0] == UpperChar(c);
  }

  /** Trimming removes leading white space in front of a text that starts and ends with a visible character. */
  lemma TrimPadded(pad: string, t: string)
    requires forall i :: 0 <= i < |pad| ==> IsSpace(pad[i])
    requires t != "" && !IsSpace(t[0]) && !IsSpace(t[|t| - 1])
    ensures Trim(pad + t) == t
  {
    var s := pad + t;
    var r := TrimStart(s);
    assert s[|pad|] == t[0];
    assert r == t;
  }

  /**
    Another loaded voucher already uses the code: its code, upper-cased but not
    trimmed, equals the normalised one. When editing, the edited voucher does not count.
   */
  predicate IsDuplicate(vouchers: seq<Voucher>, normalized: string, editing: Option<string>)
  {
    exists v :: v in vouchers && ToUpper(v.code) == normalized && (editing.None? || v.id != editing.value)
  }

  /** A voucher whose code differs only in letter case is a duplicate, unless it is the one edited. */
  lemma CaseVariantIsDuplicate(vouchers: seq<Voucher>, v: Voucher, code: string, editing: Option<string>)
    requires v in vouchers && ToUpper(v.code) == ToUpper(code) && Trim(code) == code
    requires editing.None? || v.id != editing.value
    ensures IsDuplicate(vouchers, NormalizeCode(code), editing)
  {
  }

  /** The limit saved: the entered one, with 0 or an empty field replaced by 20. */
  function StoredUsageLimit(entered: Option<int>): int
  {
    match entered
    case None => DEFAULT_USAGE_LIMIT
    case Some(u) => if u == 0 then DEFAULT_USAGE_LIMIT else u
  }

  /**
    An accepted form always saves a positive limit, so the derived validity
    flag is always true for it.
   */
  lemma AcceptedVoucherIsValid(f: VoucherForm)
    requires FormAccepted(f)
    ensures StoredUsageLimit(f.usageLimit) > 0
    ensures f.usageLimit.Some? && f.usageLimit.value > 0 ==> StoredUsageLimit(f.usageLimit) == f.usageLimit.value
  {
  }

  /** A created voucher loads back as written, with a count of 0. */
  lemma CreatedLoadsBack(id: string, f: VoucherForm)
    requires FormAccepted(f)
    ensures var u := StoredUsageLimit(f.usageLimit);
            LoadVoucher(VoucherDoc(id, NormalizeCode(f.code), f.discountValue.value, Some(0), Some(u), Stored(0 < u)))
              == Voucher(id, NormalizeCode(f.code), f.discountValue.value, 0, u, true)
  {
  }

  /** An edit never changes a voucher's usage count. */
  lemma {:induction false} UpdateKeepsCounts(docs: seq<VoucherDoc>, id: string, code: string, discount: int, limit: int, valid: bool)
    ensures |SetVoucher(docs, id, code, discount, limit, valid)| == |docs|
    ensures forall i :: 0 <= i < |docs| ==>
              SetVoucher(docs, id, code, discount, limit, valid)[i].count == docs[i].count
              && SetVoucher(docs, id, code, discount, limit, valid)[i].id == docs[i].id
  {
  }

  /** What `onSubmit` does with the entered values. */
  datatype Plan = Rejected | Duplicate | Save(code: string, discountValue: int, usageLimit: int, valid: bool)

  /** The voucher being edited, if any. */
  function Editing(isEdit: bool, selected: Option<Voucher>): Option<string>
  {
    if isEdit && selected.Some? then Some(selected.value.id) else None
  }

  /**
    The submission of form `f` against the loaded `vouchers`: rejected by
    validation, refused as a duplicate, or saved with the normalised code, the
    defaulted limit and a validity flag that holds exactly when that limit is positive.
   */
  function PlanSubmit(f: VoucherForm, vouchers: seq<Voucher>, editing: Option<string>): (p: Plan)
    ensures p.Rejected? <==> !FormAccepted(f)
    ensures p.Duplicate? <==> FormAccepted(f) && IsDuplicate(vouchers, NormalizeCode(f.code), editing)
    ensures p.Save? ==> && p.code == NormalizeCode(f.code)
                        && p.discountValue == f.discountValue.value
                        && p.usageLimit == StoredUsageLimit(f.usageLimit)
                        && p.valid && p.usageLimit > 0
  {
    if !FormAccepted(f) then Rejected
    else
      var code := NormalizeCode(f.code);
      if IsDuplicate(vouchers, code, editing) then Duplicate
      else
        AcceptedVoucherIsValid(f);
        var limit := StoredUsageLimit(f.usageLimit);
        Save(code, f.discountValue.value, limit, 0 < limit)
  }

  /** The document a save creates: count 0 and the planned values. */
  function Created(id: string, plan: Plan): VoucherDoc
    requires plan.Save?
  {
    VoucherDoc(id, plan.code, plan.discountValue, Some(0), Some(plan.usageLimit), Stored(plan.valid))
  }

  /**
    The form a leftover selection pre-fills, submitted unchanged outside edit
    mode, is refused as a duplicate of the voucher it came from while that
    voucher is still loaded.
   */
  lemma PrefilledAddIsDuplicate(vouchers: seq<Voucher>, v: Voucher)
    requires v in vouchers && Trim(v.code) == v.code && |v.code| >= MIN_CODE_LENGTH
    requires 0 < v.discountValue <= MAX_DISCOUNT && v.usageLimit >= 0
    ensures PlanSubmit(InitialForm(Some(v)), vouchers, Editing(false, Some(v))) == Duplicate
  {
    var f := InitialForm(Some(v));
    PrefilledAccepted(v);
    assert IsDuplicate(vouchers, NormalizeCode(f.code), None);
  }

  /** A loaded voucher that met the form's rules pre-fills a form that meets them, with its own code. */
  lemma PrefilledAccepted(v: Voucher)
    requires |v.code| >= MIN_CODE_LENGTH && 0 < v.discountValue <= MAX_DISCOUNT && v.usageLimit >= 0
    ensures InitialForm(Some(v)).code == v.code && FormAccepted(InitialForm(Some(v)))
  {
  }

  /**
    Once that voucher is gone from the loaded list (and no other voucher
    uses its code), the same unchanged form creates it again.
   */
  lemma PrefilledAddRecreates(vouchers: seq<Voucher>, v: Voucher)
    requires forall w :: w in vouchers ==> ToUpper(w.code) != NormalizeCode(v.code)
    requires |v.code| >= MIN_CODE_LENGTH && 0 < v.discountValue <= MAX_DISCOUNT && v.usageLimit >= 0
    ensures PlanSubmit(InitialForm(Some(v)), vouchers, Editing(false, Some(v)))
              == Save(NormalizeCode(v.code), v.discountValue, if v.usageLimit == 0 then DEFAULT_USAGE_LIMIT else v.usageLimit, true)
  {
    var f := InitialForm(Some(v));
    PrefilledAccepted(v);
    assert !IsDuplicate(vouchers, NormalizeCode(f.code), None);
  }

  // ------------------------------------------------------------------ the page

  class VouchersPage {
    const store: Backend
    var vouchers: seq<Voucher>
    var error: Option<string>
    var modal: bool
    var selectedVoucher: Option<Voucher>
    var isEdit: bool
    var deleteModal: bool
    var form: VoucherForm
    var formError: Option<string>

    /**
      An edit always has a voucher to edit, and while the dialog is closed the
      form holds the values the selection reinitialises it to.
     */
    predicate Consistent()
      reads this
    {
      && (isEdit ==> selectedVoucher.Some?)
      && (!modal ==> form == InitialForm(selectedVoucher))
    }

    constructor (store: Backend)
      ensures this.store == store && Consistent()
      ensures vouchers == [] && error == None && !modal && selectedVoucher == None && !isEdit && !deleteModal
      ensures form == InitialForm(None) && formError == None
    {
      this.store := store;
      vouchers, error, modal, selectedVoucher, isEdit, deleteModal := [], None, false, None, false, false;
      form, formError := InitialForm(None), None;
    }

    /** `fetchVouchers`: the listed vouchers, defaulted; on failure the list stays and the error is set. */
    method FetchVouchers() returns (notice: Notice)
      modifies this`vouchers, this`error
      ensures notice == Quiet || notice == Failure(FETCH_FAILED)
      ensures notice == Quiet ==> vouchers == LoadVouchers(Prefix(store.vouchers, DEFAULT_LIMIT)) && error == old(error)
      ensures notice.Failure? ==> vouchers == old(vouchers) && error == Some(FETCH_FAILED)
    {
      var response := store.ListVouchers();
      if response.None? {
        error := Some(FETCH_FAILED);
        return Failure(FETCH_FAILED);
      }
      vouchers := LoadVouchers(response.value);
      return Quiet;
    }

    /**
      `toggleModal`: closing the dialog clears the selection, leaves edit mode
      and resets the form and its errors; opening it changes nothing else.
     */
    method ToggleModal()
      requires Consistent()
      modifies this`modal, this`selectedVoucher, this`isEdit, this`form, this`formError
      ensures Consistent() && modal == !old(modal)
      ensures old(modal) ==> selectedVoucher == None && !isEdit && form == InitialForm(None) && formError == None
      ensures !old(modal) ==> selectedVoucher == old(selectedVoucher) && isEdit == old(isEdit)
                              && form == old(form) && formError == old(formError)
    {
      var wasOpen := modal;
      modal := !modal;
      if wasOpen {
        selectedVoucher := None;
        isEdit := false;
        form := InitialForm(None);
        formError := None;
      }
    }

    /**
      The "Add Voucher" button: leave edit mode, then toggle the dialog. A
      selection left over from the delete dialog stays, so the opened form is
      pre-filled with that voucher's values.
     */
    method AddVoucher()
      requires Consistent()
      modifies this`modal, this`selectedVoucher, this`isEdit, this`form, this`formError
      ensures Consistent() && modal == !old(modal) && !isEdit
      ensures !old(modal) ==> selectedVoucher == old(selectedVoucher) && form == InitialForm(old(selectedVoucher))
      ensures old(modal) ==> selectedVoucher == None && form == InitialForm(None)
    {
      isEdit := false;
      ToggleModal();
    }

    /** `handleEditVoucher`: open the dialog in edit mode on the voucher's values. */
    method HandleEditVoucher(v: Voucher)
      modifies this`modal, this`selectedVoucher, this`isEdit, this`form
      ensures Consistent() && modal && isEdit && selectedVoucher == Some(v) && form == InitialForm(Some(v))
    {
      selectedVoucher := Some(v);
      isEdit := true;
      modal := true;
      form := InitialForm(Some(v));
    }

    /**
      `handleDeleteVoucher`: remember the voucher and ask for confirmation. A
      new selection reinitialises the form to that voucher's values.
     */
    method HandleDeleteVoucher(v: Voucher)
      requires Consistent()
      modifies this`selectedVoucher, this`deleteModal, this`form, this`formError
      ensures Consistent() && selectedVoucher == Some(v) && deleteModal
      ensures old(selectedVoucher) != Some(v) ==> form == InitialForm(Some(v)) && formError == None
      ensures old(selectedVoucher) == Some(v) ==> form == old(form) && formError == old(formError)
      ensures !modal ==> form == InitialForm(Some(v))
    {
      if selectedVoucher != Some(v) {
        form := InitialForm(Some(v));
        formError := None;
      }
      selectedVoucher := Some(v);
      deleteModal := true;
    }

    /** Closing the delete dialog without deleting: the selection and the form stay. */
    method CancelDelete()
      modifies this`deleteModal
      ensures !deleteModal
    {
      deleteModal := false;
    }

    /**
      A change to a field of the open dialog's form; it revalidates, which
      drops the uniqueness error.
     */
    method HandleChange(f: VoucherForm)
      requires Consistent() && modal
      modifies this`form, this`formError
      ensures Consistent() && form == f && formError == None
    {
      form := f;
      formError := None;
    }

    /**
      `confirmDelete`: delete the selected voucher, then refetch and close the
      dialog. The selection is not cleared.
     */
    method ConfirmDelete() returns (notice: Notice)
      requires store.Valid()
      modifies store`vouchers, this`vouchers, this`error, this`deleteModal
      ensures store.Valid()
      ensures notice == Success(DELETED) || notice == Failure(DELETE_FAILED)
      ensures notice.Success? ==> && selectedVoucher.Some?
                                  && store.vouchers == WithoutVoucher(old(store.vouchers), selectedVoucher.value.id)
                                  && !deleteModal
                                  && (|| (vouchers == LoadVouchers(Prefix(store.vouchers, DEFAULT_LIMIT)) && error == old(error))
                                      || (vouchers == old(vouchers) && error == Some(FETCH_FAILED)))
      ensures notice.Failure? ==> store.vouchers == old(store.vouchers) && vouchers == old(vouchers)
                                  && error == old(error) && deleteModal == old(deleteModal)
    {
      if selectedVoucher.None? {
        return Failure(DELETE_FAILED);
      }
      var ok := store.DeleteVoucher(selectedVoucher.value.id);
      if !ok {
        return Failure(DELETE_FAILED);
      }
      var _ := FetchVouchers();
      deleteModal := false;
      return Success(DELETED);
    }

    /** The save step of `onSubmit`: update the edited voucher (never its count) or create one with count 0. */
    method Save(plan: Plan, editing: Option<string>) returns (ok: bool)
      requires store.Valid() && plan.Save?
      modifies store`vouchers
      ensures store.Valid()
      ensures editing.Some? ==> store.vouchers == if ok then SetVoucher(old(store.vouchers), editing.value, plan.code, plan.discountValue, plan.usageLimit, plan.valid)
                                                  else old(store.vouchers)
      ensures editing.None? && ok ==> exists id :: id !in IdSet(old(store.vouchers), VoucherId)
                                                   && store.vouchers == old(store.vouchers) + [Created(id, plan)]
      ensures !ok ==> store.vouchers == old(store.vouchers)
    {
      if editing.Some? {
        ok := store.UpdateVoucher(editing.value, plan.code, plan.discountValue, plan.usageLimit, plan.valid);
      } else {
        var id := store.CreateVoucher(plan.code, plan.discountValue, 0, plan.usageLimit, plan.valid);
        ok := id.Some?;
        if ok {
          assert store.vouchers == old(store.vouchers) + [Created(id.value, plan)];
        }
      }
    }

    /**
      The form's `onSubmit`, reached only from the open dialog (an invalid form
      never reaches it and changes nothing): a duplicate code sets the field
      error and saves nothing; a save that succeeds refetches and closes the
      dialog; otherwise the dialog, the selection, the form and the list stay.
     */
    method Submit() returns (notice: Notice)
      requires store.Valid() && Consistent() && modal
      modifies store`vouchers, this`vouchers, this`error, this`formError
      modifies this`modal, this`selectedVoucher, this`isEdit, this`form
      ensures store.Valid() && Consistent()
      ensures var plan := PlanSubmit(old(form), old(vouchers), Editing(old(isEdit), old(selectedVoucher)));
              !plan.Save? ==> notice == Quiet && store.vouchers == old(store.vouchers)
      ensures PlanSubmit(old(form), old(vouchers), Editing(old(isEdit), old(selectedVoucher))).Duplicate? ==>
                formError == Some(NOT_UNIQUE)
      ensures var plan := PlanSubmit(old(form), old(vouchers), Editing(old(isEdit), old(selectedVoucher)));
              plan.Save? && old(isEdit) ==>
                && (notice == Success(UPDATED) || notice == Failure(UPDATE_FAILED))
                && store.vouchers == if notice.Success?
                                     then SetVoucher(old(store.vouchers), old(selectedVoucher).value.id, plan.code, plan.discountValue, plan.usageLimit, plan.valid)
                                     else old(store.vouchers)
      ensures var plan := PlanSubmit(old(form), old(vouchers), Editing(old(isEdit), old(selectedVoucher)));
              plan.Save? && !old(isEdit) ==>
                && (notice == Success(CREATED) || notice == Failure(CREATE_FAILED))
                && (notice.Success? ==> exists id :: id !in IdSet(old(store.vouchers), VoucherId)
                                                     && store.vouchers == old(store.vouchers) + [Created(id, plan)])
                && (notice.Failure? ==> store.vouchers == old(store.vouchers))
      ensures notice.Success? ==> && !modal && selectedVoucher == None && !isEdit && form == InitialForm(None)
                                  && (|| (vouchers == LoadVouchers(Prefix(store.vouchers, DEFAULT_LIMIT)) && error == old(error))
                                      || (vouchers == old(vouchers) && error == Some(FETCH_FAILED)))
      ensures !notice.Success? ==> && modal && selectedVoucher == old(selectedVoucher) && isEdit == old(isEdit)
                                   && form == old(form) && vouchers == old(vouchers) && error == old(error)
    {
      var editing := Editing(isEdit, selectedVoucher);
      var plan := PlanSubmit(form, vouchers, editing);
      if !plan.Save? {
        if plan.Duplicate? {
          formError := Some(NOT_UNIQUE);
        }
        return Quiet;
      }
      var ok := Save(plan, editing);
      if !ok {
        return Failure(if isEdit then UPDATE_FAILED else CREATE_FAILED);
      }
      notice := Success(if isEdit then UPDATED else CREATED);
      CloseAfterSave();
    }

    /** After a successful save: refetch, then close the open dialog through `toggleModal`. */
    method CloseAfterSave()
      requires Consistent() && modal
      modifies this`vouchers, this`error, this`modal, this`selectedVoucher, this`isEdit, this`form, this`formError
      ensures Consistent() && !modal && selectedVoucher == None && !isEdit && form == InitialForm(None) && formError == None
      ensures || (vouchers == LoadVouchers(Prefix(store.vouchers, DEFAULT_LIMIT)) && error == old(error))
              || (vouchers == old(vouchers) && error == Some(FETCH_FAILED))
    {
      var _ := FetchVouchers();
      ToggleModal();
    }
  }
}

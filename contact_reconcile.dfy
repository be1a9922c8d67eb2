/** The "other contacts" reconciliation of the supplier edit form
    (Controllers/SupplierController.cs, `Edit` POST): persisted contacts of
    the supplier that were not resubmitted are deleted, resubmitted ones are
    overwritten by their form row, and new rows with some content are added.

    These are the specification functions of `SupplierStore.Store.Edit`: the
    contacts of the whole store, keyed by contact id, before and after. */
module ContactReconcile {
  import opened Wrappers
  import opened Text
  import opened Entities
  import opened Linq

  /** One row of the contacts part of the form; id 0 (or below) is a new row. */
  datatype ContactForm = ContactForm(
    contactId: int,
    name: Option<string>,
    email: Option<string>,
    phone: Option<string>)

  predicate AllBlank(f: ContactForm) {
    IsNullOrWhiteSpace(f.name) && IsNullOrWhiteSpace(f.email) && IsNullOrWhiteSpace(f.phone)
  }

  /** A row that creates a contact: no id and at least one non-blank field. */
  predicate IsNewRow(f: ContactForm) {
    f.contactId <= 0 && !AllBlank(f)
  }

  /** The ids of the submitted rows that refer to persisted contacts. */
  function SubmittedIds(forms: seq<ContactForm>): set<int> {
    set f | f in forms && f.contactId > 0 :: f.contactId
  }

  /** The contacts left after `RemoveRange`: every contact of another
      supplier, and the contacts of `supplierId` whose id was resubmitted. */
  function Kept(contacts: map<int, SupplierContact>, supplierId: int, forms: seq<ContactForm>)
    : (r: map<int, SupplierContact>)
    ensures forall id :: id in r <==>
      id in contacts && (contacts[id].supplierCompanyId != supplierId || id in SubmittedIds(forms))
    ensures forall id :: id in r ==> r[id] == contacts[id]
  {
    map id | id in contacts && (contacts[id].supplierCompanyId != supplierId || id in SubmittedIds(forms))
      :: contacts[id]
  }

  /** The last row of `forms` that carries `id`, if any. */
  function LastFor(forms: seq<ContactForm>, id: int): (r: Option<ContactForm>)
    ensures r.Some? ==> r.value in forms && r.value.contactId == id
    ensures r.Some? ==>
      exists k :: 0 <= k < |forms| && forms[k] == r.value &&
        forall j :: k < j < |forms| ==> forms[j].contactId != id
    ensures r.None? <==> forall f :: f in forms ==> f.contactId != id
    decreases |forms|
  {
    if forms == [] then None
    else
      var init := forms[..|forms| - 1];
      var last := forms[|forms| - 1];
      assert forms == init + [last];
      if last.contactId == id then Some(last)
      else
        var r := LastFor(init, id);
        if r.Some? then
          var k :| 0 <= k < |init| && init[k] == r.value && forall j :: k < j < |init| ==> init[j].contactId != id;
          assert forms[k] == r.value;
          r
        else r
  }

  /** A persisted contact with the name, email and phone of a form row. */
  function Overwrite(c: SupplierContact, f: ContactForm): (r: SupplierContact)
    ensures r.contactId == c.contactId && r.supplierCompanyId == c.supplierCompanyId
    ensures r.contactPersonName == f.name && r.email == f.email && r.phoneNumber == f.phone
  {
    c.(contactPersonName := f.name, email := f.email, phoneNumber := f.phone)
  }

  /** `kept` after the rows of `prefix` have been applied to the contacts of
      `supplierId` they name. */
  function Updated(kept: map<int, SupplierContact>, supplierId: int, prefix: seq<ContactForm>)
    : (r: map<int, SupplierContact>)
    ensures r.Keys == kept.Keys
    ensures forall id :: id in r ==>
      r[id].contactId == kept[id].contactId && r[id].supplierCompanyId == kept[id].supplierCompanyId
  {
    map id | id in kept :: ContactAfter(id, kept[id], supplierId, prefix)
  }

  /** The contact `c`, kept under `id`, once the rows of `prefix` were
      applied: the last row naming `id` overwrites it if `c` belongs to
      `supplierId`. */
  function ContactAfter(id: int, c: SupplierContact, supplierId: int, prefix: seq<ContactForm>)
    : (r: SupplierContact)
    ensures r.contactId == c.contactId && r.supplierCompanyId == c.supplierCompanyId
  {
    if c.supplierCompanyId == supplierId && LastFor(prefix, id).Some?
    then Overwrite(c, LastFor(prefix, id).value)
    else c
  }

  function NewRowFilter(): ContactForm -> bool {
    (f: ContactForm) => IsNewRow(f)
  }

  /** The rows of `forms` that create contacts, collected row by row: the
      same as filtering `forms` for new rows, which keeps their order. */
  function NewRows(forms: seq<ContactForm>): (r: seq<ContactForm>)
    ensures r == Where(forms, NewRowFilter())
    decreases |forms|
  {
    if forms == [] then []
    else
      var init := forms[..|forms| - 1];
      var last := forms[|forms| - 1];
      assert forms == init + [last];
      WhereAppend(init, [last], NewRowFilter());
      assert [last][1..] == [];
      NewRows(init) + (if IsNewRow(last) then [last] else [])
  }

  /** The contact a new row creates, with the id the store assigns it. */
  function NewContact(f: ContactForm, supplierId: int, contactId: int): SupplierContact {
    SupplierContact(contactId, f.name, f.email, f.phone, supplierId)
  }

  /** The new contacts, numbered from `next` in the order of their rows. */
  function Inserted(rows: seq<ContactForm>, supplierId: int, next: int): (r: map<int, SupplierContact>)
    ensures forall id :: id in r <==> next <= id < next + |rows|
  {
    map id | next <= id < next + |rows| :: NewContact(RowFor(rows, next, id), supplierId, id)
  }

  /** The row that receives id `id` when ids are handed out from `next`. */
  function RowFor(rows: seq<ContactForm>, next: int, id: int): ContactForm
    requires next <= id < next + |rows|
  {
    rows[id - next]
  }

  /** The store's contacts once `Edit` of `supplierId` has saved `forms`. */
  function Reconciled(contacts: map<int, SupplierContact>, supplierId: int,
                      forms: seq<ContactForm>, next: int): map<int, SupplierContact>
  {
    Updated(Kept(contacts, supplierId, forms), supplierId, forms) + Inserted(NewRows(forms), supplierId, next)
  }

  // ------------------------------------------------------------ steps

  /** Applying one more row to the updated contacts. */
  lemma UpdatedStep(kept: map<int, SupplierContact>, supplierId: int, prefix: seq<ContactForm>, f: ContactForm)
    ensures var before := Updated(kept, supplierId, prefix);
      Updated(kept, supplierId, prefix + [f]) ==
        if f.contactId in kept && kept[f.contactId].supplierCompanyId == supplierId
        then before[f.contactId := Overwrite(before[f.contactId], f)]
        else before
  {
    var before := Updated(kept, supplierId, prefix);
    var after := Updated(kept, supplierId, prefix + [f]);
    var expected := if f.contactId in kept && kept[f.contactId].supplierCompanyId == supplierId
      then before[f.contactId := Overwrite(before[f.contactId], f)]
      else before;
    forall id | id in kept ensures after[id] == expected[id] {
      UpdatedStepAt(kept, supplierId, prefix, f, id);
    }
    assert after.Keys == expected.Keys;
    assert after == expected;
  }

  lemma UpdatedStepAt(kept: map<int, SupplierContact>, supplierId: int, prefix: seq<ContactForm>,
                      f: ContactForm, id: int)
    requires id in kept
    ensures var before := Updated(kept, supplierId, prefix);
      Updated(kept, supplierId, prefix + [f])[id] ==
        if id == f.contactId && kept[id].supplierCompanyId == supplierId
        then Overwrite(before[id], f)
        else before[id]
  {
    ContactAfterStep(id, kept[id], supplierId, prefix, f);
  }

  lemma ContactAfterStep(id: int, c: SupplierContact, supplierId: int, prefix: seq<ContactForm>, f: ContactForm)
    ensures ContactAfter(id, c, supplierId, prefix + [f]) ==
      if id == f.contactId && c.supplierCompanyId == supplierId
      then Overwrite(ContactAfter(id, c, supplierId, prefix), f)
      else ContactAfter(id, c, supplierId, prefix)
  {
    LastForStep(prefix, f, id);
  }

  lemma LastForStep(prefix: seq<ContactForm>, f: ContactForm, id: int)
    ensures LastFor(prefix + [f], id) == if f.contactId == id then Some(f) else LastFor(prefix, id)
  {
    var p := prefix + [f];
    assert p[..|p| - 1] == prefix && p[|p| - 1] == f;
  }

  lemma NewRowsStep(prefix: seq<ContactForm>, f: ContactForm)
    ensures NewRows(prefix + [f]) == NewRows(prefix) + (if IsNewRow(f) then [f] else [])
  {
    var p := prefix + [f];
    assert p[..|p| - 1] == prefix;
  }

  // ------------------------------------------------------------ properties

  /** A new-row entry is kept exactly when it has some non-blank field, and
      rows are kept in their order of submission. */
  lemma NewRowsSpec(forms: seq<ContactForm>)
    ensures forall f :: multiset(NewRows(forms))[f] ==
                        if f.contactId <= 0 && !AllBlank(f) then multiset(forms)[f] else 0
    ensures forall f :: f in NewRows(forms) <==> f in forms && f.contactId <= 0 && !AllBlank(f)
  {
    WhereCount(forms, NewRowFilter());
    forall f ensures f in NewRows(forms) <==> f in forms && f.contactId <= 0 && !AllBlank(f) {
      assert f in NewRows(forms) <==> multiset(NewRows(forms))[f] > 0;
      assert f in forms <==> multiset(forms)[f] > 0;
    }
  }

  /** A row holding only a no-break space is a blank placeholder. */
  lemma NoBreakSpaceRowIsBlank()
    ensures !IsNewRow(ContactForm(0, Some("\U{00A0}"), None, None))
  {
  }

  /** A contact of the edited supplier whose id was not resubmitted is gone. */
  lemma ReconciledDeletes(contacts: map<int, SupplierContact>, supplierId: int,
                          forms: seq<ContactForm>, next: int, id: int)
    requires forall i :: i in contacts ==> i < next
    requires id in contacts && contacts[id].supplierCompanyId == supplierId
    requires id !in SubmittedIds(forms)
    ensures id !in Reconciled(contacts, supplierId, forms, next)
  {
  }

  /** A resubmitted contact of the edited supplier takes the name, email and
      phone of the last row that names it, blank values included. */
  lemma ReconciledOverwrites(contacts: map<int, SupplierContact>, supplierId: int,
                             forms: seq<ContactForm>, next: int, id: int)
    requires forall i :: i in contacts ==> i < next
    requires id in contacts && contacts[id].supplierCompanyId == supplierId
    requires id in SubmittedIds(forms)
    ensures LastFor(forms, id).Some?
    ensures id in Reconciled(contacts, supplierId, forms, next)
    ensures Reconciled(contacts, supplierId, forms, next)[id] ==
      Overwrite(contacts[id], LastFor(forms, id).value)
  {
    var f :| f in forms && f.contactId > 0 && f.contactId == id;
  }

  /** Contacts of other suppliers are left alone, even when their id is
      submitted, and a submitted id that names no persisted contact of the
      edited supplier creates nothing. */
  lemma ReconciledIgnoresOthers(contacts: map<int, SupplierContact>, supplierId: int,
                                forms: seq<ContactForm>, next: int)
    requires forall i :: i in contacts ==> i < next
    ensures forall id :: id in contacts && contacts[id].supplierCompanyId != supplierId ==>
      id in Reconciled(contacts, supplierId, forms, next) &&
      Reconciled(contacts, supplierId, forms, next)[id] == contacts[id]
    ensures forall id :: id < next && id !in contacts ==> id !in Reconciled(contacts, supplierId, forms, next)
  {
  }

  /** The new rows become contacts of the edited supplier with fresh ids,
      numbered in submission order. */
  lemma ReconciledInserts(contacts: map<int, SupplierContact>, supplierId: int,
                          forms: seq<ContactForm>, next: int)
    requires forall i :: i in contacts ==> i < next
    ensures var r := Reconciled(contacts, supplierId, forms, next);
      var rows := NewRows(forms);
      forall k :: 0 <= k < |rows| ==>
        next + k in r && r[next + k] == NewContact(rows[k], supplierId, next + k)
  {
  }

  /** The reconciled contacts keep the store's numbering: every contact is
      keyed by its own id, ids stay positive and below the advanced counter,
      and each contact belongs to the supplier it belonged to before or, if
      new, to the edited supplier. */
  lemma ReconciledWellFormed(contacts: map<int, SupplierContact>, supplierId: int,
                             forms: seq<ContactForm>, next: int)
    requires next > 0
    requires forall i :: i in contacts ==> 0 < i < next && contacts[i].contactId == i
    ensures var r := Reconciled(contacts, supplierId, forms, next);
      forall i :: i in r ==>
        0 < i < next + |NewRows(forms)| && r[i].contactId == i &&
        (r[i].supplierCompanyId == supplierId ||
         (i in contacts && r[i].supplierCompanyId == contacts[i].supplierCompanyId))
  {
  }
}

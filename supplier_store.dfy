/** The state-changing supplier actions of Controllers/SupplierController.cs
    (`Create`, `Edit` and `PerformDelete` POST, and `GetSupplierImage`) over
    an in-memory picture of the database: the `supplier` and
    `supplierContact` tables keyed by id, and the supplier link of each
    product. Ids are handed out by the store when a row is saved. */
module SupplierStore {
  import opened Wrappers
  import opened Text
  import opened ImageSniffing
  import opened Entities
  import opened ContactReconcile

  /** The posted supplier form (`AddSupplierViewModel`), as `Create` and
      `Edit` read it. A missing contacts list is the empty sequence. */
  datatype SupplierForm = SupplierForm(
    supplierId: int,
    companyName: string,
    profileImageFile: Option<seq<byte>>,
    personName: Option<string>,
    department: Option<string>,
    email: Option<string>,
    phoneNumber: string,
    address: Option<string>,
    currency: Option<string>,
    paymentMethod: Option<string>,
    courier: Option<string>,
    portalStatus: Option<string>,
    primaryContactName: Option<string>,
    primaryContactEmail: Option<string>,
    primaryContactPhone: Option<string>,
    otherContacts: seq<ContactForm>,
    hasExistingProfileImage: bool)

  /** The status a supplier is saved with when the form left it empty. */
  const DefaultPortalStatus := "Active"

  /** What `Edit` answers. The two redisplays of the form carry whether the
      form says the supplier already has a profile image. */
  datatype EditOutcome =
    | BadRequest
    | InvalidModel(hasExistingProfileImage: bool)
    | EditNotFound
    | DuplicateName(hasExistingProfileImage: bool)
    | EditSaved

  /** What `Create` answers. */
  datatype CreateOutcome = CreateInvalid | CreateDuplicate | Created(supplierId: int)

  /** The JSON answer of `PerformDelete`. */
  datatype DeleteOutcome =
    | DeleteNotFound
    | DeleteRestricted(companyName: string, productCount: nat)
    | Deleted(companyName: string)

  predicate HasProfileImage(s: Supplier) {
    s.profileImage.Some? && |s.profileImage.value| > 0
  }

  /** Some supplier other than `id` already uses `name`. */
  predicate NameTakenByOther(suppliers: map<int, Supplier>, name: string, id: int) {
    exists k :: k in suppliers && k != id && suppliers[k].companyName == name
  }

  /** Some supplier uses `name`. */
  predicate NameTaken(suppliers: map<int, Supplier>, name: string) {
    exists k :: k in suppliers && suppliers[k].companyName == name
  }

  /** The supplier row `Create` inserts under the id `id`. */
  function NewSupplier(model: SupplierForm, id: int): (r: Supplier)
    ensures r.supplierId == id && r.companyName == model.companyName
    ensures r.portalStatus == if model.portalStatus.Some? then model.portalStatus.value else DefaultPortalStatus
    ensures r.profileImage == model.profileImageFile
    ensures r.personName == model.personName && r.department == model.department
    ensures r.email == model.email && r.phoneNumber == model.phoneNumber && r.address == model.address
    ensures r.currency == model.currency && r.paymentMethod == model.paymentMethod && r.courier == model.courier
  {
    Supplier(id, model.companyName, model.profileImageFile, model.personName, model.department,
      model.email, model.phoneNumber, model.address, model.currency, model.paymentMethod,
      model.courier, model.portalStatus.GetOr(DefaultPortalStatus))
  }

  /** The supplier row after `Edit` copied the form's scalar fields onto it. */
  function UpdatedSupplier(s: Supplier, model: SupplierForm): (r: Supplier)
    ensures r.supplierId == s.supplierId && r.companyName == model.companyName
    ensures r.portalStatus == if model.portalStatus.Some? then model.portalStatus.value else DefaultPortalStatus
    ensures r.profileImage ==
      if model.profileImageFile.Some? && model.profileImageFile.value != [] then model.profileImageFile
      else s.profileImage
    ensures r.personName == model.personName && r.department == model.department
    ensures r.email == model.email && r.phoneNumber == model.phoneNumber && r.address == model.address
    ensures r.currency == model.currency && r.paymentMethod == model.paymentMethod && r.courier == model.courier
  {
    s.(companyName := model.companyName, personName := model.personName, department := model.department,
       email := model.email, phoneNumber := model.phoneNumber, address := model.address,
       currency := model.currency, paymentMethod := model.paymentMethod, courier := model.courier,
       portalStatus := model.portalStatus.GetOr(DefaultPortalStatus),
       profileImage := if model.profileImageFile.Some? && |model.profileImageFile.value| > 0
                       then model.profileImageFile else s.profileImage)
  }

  /** `Create` adds a primary contact only when all three of its fields are filled. */
  predicate HasPrimaryContact(model: SupplierForm) {
    !IsNullOrWhiteSpace(model.primaryContactName) &&
    !IsNullOrWhiteSpace(model.primaryContactEmail) &&
    !IsNullOrWhiteSpace(model.primaryContactPhone)
  }

  function PrimaryContact(model: SupplierForm, supplierId: int, contactId: int): SupplierContact {
    SupplierContact(contactId, model.primaryContactName, model.primaryContactEmail,
      model.primaryContactPhone, supplierId)
  }

  /** The contacts left once the supplier `id` is deleted (cascade). */
  function WithoutContactsOf(contacts: map<int, SupplierContact>, id: int): (r: map<int, SupplierContact>)
    ensures forall c :: c in r <==> c in contacts && contacts[c].supplierCompanyId != id
    ensures forall c :: c in r ==> r[c] == contacts[c]
  {
    map c | c in contacts && contacts[c].supplierCompanyId != id :: contacts[c]
  }

  /** The product links once the supplier `id` is gone: its products keep
      existing with no supplier. */
  function Detached(links: map<int, Option<int>>, id: int): (r: map<int, Option<int>>)
    ensures r.Keys == links.Keys
    ensures forall p :: p in r ==> r[p] == if links[p] == Some(id) then None else links[p]
  {
    map p | p in links :: if links[p] == Some(id) then None else links[p]
  }

  /** The products that name `id` as their supplier. */
  function ProductsOf(links: map<int, Option<int>>, id: int): (r: set<int>)
    ensures forall p :: p in r <==> p in links && links[p] == Some(id)
  {
    set p | p in links && links[p] == Some(id)
  }

  class Store {
    var suppliers: map<int, Supplier>
    var contacts: map<int, SupplierContact>
    /** Product id to the id of its supplier, if it has one. */
    var productSupplier: map<int, Option<int>>
    var nextSupplierId: int
    var nextContactId: int

    /** Rows are keyed by their own positive ids, below the next id to hand
        out; every contact and every product link names an existing
        supplier (the required and the optional foreign key); company names
        are unique (the unique index on `CompanyName`). */
    ghost predicate Valid()
      reads this
    {
      0 < nextSupplierId && 0 < nextContactId &&
      (forall k :: k in suppliers ==> 0 < k < nextSupplierId && suppliers[k].supplierId == k) &&
      (forall k :: k in contacts ==>
        0 < k < nextContactId && contacts[k].contactId == k && contacts[k].supplierCompanyId in suppliers) &&
      (forall p :: p in productSupplier && productSupplier[p].Some? ==> productSupplier[p].value in suppliers) &&
      (forall a, b :: a in suppliers && b in suppliers && a != b ==>
        suppliers[a].companyName != suppliers[b].companyName)
    }

    constructor()
      ensures Valid()
      ensures suppliers == map[] && contacts == map[] && productSupplier == map[]
    {
      suppliers := map[];
      contacts := map[];
      productSupplier := map[];
      nextSupplierId := 1;
      nextContactId := 1;
    }

    /** `GetSupplierImage`: the supplier's profile image when it has a
        non-empty one, served as PNG when it has the PNG signature and as
        JPEG otherwise. */
    function GetSupplierImage(id: int): (r: ImageResult)
      reads this
      ensures r.NotFound? <==> !(id in suppliers && HasProfileImage(suppliers[id]))
      ensures r.File? ==> r.bytes == suppliers[id].profileImage.value
      ensures r.File? ==> (r.contentType == "image/png" <==> IsPng(r.bytes))
      ensures r.File? ==> (r.contentType == "image/jpeg" <==> !IsPng(r.bytes))
    {
      if id in suppliers && HasProfileImage(suppliers[id]) then
        var bytes := suppliers[id].profileImage.value;
        File(bytes, SupplierImageContentType(bytes))
      else NotFound
    }

    /** `Create` POST: an invalid form or a company name already in use
        changes nothing; otherwise the supplier is inserted under a fresh id,
        with the primary contact when all its fields are filled. */
    method Create(model: SupplierForm, modelStateValid: bool) returns (outcome: CreateOutcome)
      requires Valid()
      modifies this
      ensures Valid()
      ensures !modelStateValid ==> outcome == CreateInvalid
      ensures modelStateValid && NameTaken(old(suppliers), model.companyName) ==> outcome == CreateDuplicate
      ensures !outcome.Created? ==> unchanged(this)
      ensures modelStateValid && !NameTaken(old(suppliers), model.companyName) ==>
        var id := old(nextSupplierId);
        && outcome == Created(id)
        && id !in old(suppliers)
        && suppliers == old(suppliers)[id := NewSupplier(model, id)]
        && contacts == (if HasPrimaryContact(model)
                        then old(contacts)[old(nextContactId) := PrimaryContact(model, id, old(nextContactId))]
                        else old(contacts))
        && productSupplier == old(productSupplier)
    {
      if !modelStateValid {
        return CreateInvalid;
      }
      if exists k :: k in suppliers && suppliers[k].companyName == model.companyName {
        return CreateDuplicate;
      }
      var id := nextSupplierId;
      suppliers := suppliers[id := NewSupplier(model, id)];
      nextSupplierId := nextSupplierId + 1;
      if HasPrimaryContact(model) {
        contacts := contacts[nextContactId := PrimaryContact(model, id, nextContactId)];
        nextContactId := nextContactId + 1;
      }
      outcome := Created(id);
    }

    /** `Edit` POST, checked in the order of the source: a route id that
        differs from the form's, an invalid form, an unknown supplier, and
        a company name used by another supplier each change nothing;
        otherwise the scalar fields are copied and the other contacts are
        reconciled with the form. */
    method Edit(id: int, model: SupplierForm, modelStateValid: bool) returns (outcome: EditOutcome)
      requires Valid()
      modifies this
      ensures Valid()
      ensures id != model.supplierId ==> outcome == BadRequest
      ensures id == model.supplierId && !modelStateValid ==>
        outcome == InvalidModel(if model.supplierId > 0 && id in old(suppliers)
                                then HasProfileImage(old(suppliers)[id])
                                else model.hasExistingProfileImage)
      ensures id == model.supplierId && modelStateValid && id !in old(suppliers) ==> outcome == EditNotFound
      ensures id == model.supplierId && modelStateValid && id in old(suppliers) &&
              NameTakenByOther(old(suppliers), model.companyName, id) ==>
        outcome == DuplicateName(HasProfileImage(old(suppliers)[id]))
      ensures !outcome.EditSaved? ==> unchanged(this)
      ensures outcome.EditSaved? <==>
        id == model.supplierId && modelStateValid && id in old(suppliers) &&
        !NameTakenByOther(old(suppliers), model.companyName, id)
      ensures outcome.EditSaved? ==>
        && suppliers == old(suppliers)[id := UpdatedSupplier(old(suppliers)[id], model)]
        && contacts == Reconciled(old(contacts), id, model.otherContacts, old(nextContactId))
        && nextContactId == old(nextContactId) + |NewRows(model.otherContacts)|
        && nextSupplierId == old(nextSupplierId)
        && productSupplier == old(productSupplier)
    {
      if id != model.supplierId {
        return BadRequest;
      }
      if !modelStateValid {
        var hasImage := model.hasExistingProfileImage;
        if model.supplierId > 0 && model.supplierId in suppliers {
          hasImage := HasProfileImage(suppliers[model.supplierId]);
        }
        return InvalidModel(hasImage);
      }
      if id !in suppliers {
        return EditNotFound;
      }
      if exists k :: k in suppliers && k != id && suppliers[k].companyName == model.companyName {
        return DuplicateName(HasProfileImage(suppliers[id]));
      }
      UpdateScalars(id, model);
      ReconcileContacts(id, model.otherContacts);
      outcome := EditSaved;
    }

    /** The scalar update of `Edit`; the name was checked to be free. */
    method UpdateScalars(id: int, model: SupplierForm)
      requires Valid()
      requires id in suppliers && !NameTakenByOther(suppliers, model.companyName, id)
      modifies this`suppliers
      ensures Valid()
      ensures suppliers == old(suppliers)[id := UpdatedSupplier(old(suppliers)[id], model)]
    {
      suppliers := suppliers[id := UpdatedSupplier(suppliers[id], model)];
    }

    /** The "other contacts" part of `Edit`: drop the supplier's contacts
        whose id was not resubmitted, apply the rows, and save the new rows
        under fresh ids. */
    method ReconcileContacts(supplierId: int, forms: seq<ContactForm>)
      requires Valid() && supplierId in suppliers
      modifies this`contacts, this`nextContactId
      ensures Valid()
      ensures contacts == Reconciled(old(contacts), supplierId, forms, old(nextContactId))
      ensures nextContactId == old(nextContactId) + |NewRows(forms)|
    {
      ghost var before := contacts;
      ReconciledWellFormed(contacts, supplierId, forms, nextContactId);
      var submitted := SubmittedIds(forms);
      contacts := map c | c in contacts && (contacts[c].supplierCompanyId != supplierId || c in submitted)
        :: contacts[c];
      assert contacts == Kept(before, supplierId, forms);
      var pending := ApplyContactRows(supplierId, forms);
      contacts := contacts + Inserted(pending, supplierId, nextContactId);
      nextContactId := nextContactId + |pending|;
      forall k | k in contacts ensures contacts[k].supplierCompanyId in suppliers {
        assert contacts[k].supplierCompanyId == supplierId ||
          (k in before && contacts[k].supplierCompanyId == before[k].supplierCompanyId);
      }
    }

    /** The loop over the submitted rows: a resubmitted contact of the
        supplier is overwritten, an empty placeholder is skipped, and a new
        row with some content is collected for insertion. */
    method ApplyContactRows(supplierId: int, forms: seq<ContactForm>) returns (pending: seq<ContactForm>)
      requires forall k :: k in contacts ==> k > 0
      modifies this`contacts
      ensures contacts == Updated(old(contacts), supplierId, forms)
      ensures pending == NewRows(forms)
    {
      ghost var kept := contacts;
      pending := [];
      var i := 0;
      while i < |forms|
        invariant 0 <= i <= |forms|
        invariant contacts == Updated(kept, supplierId, forms[..i])
        invariant pending == NewRows(forms[..i])
      {
        var f := forms[i];
        UpdatedStep(kept, supplierId, forms[..i], f);
        NewRowsStep(forms[..i], f);
        assert forms[..i + 1] == forms[..i] + [f];
        if f.contactId == 0 && AllBlank(f) {
          // an empty placeholder row
        } else if f.contactId > 0 {
          if f.contactId in contacts && contacts[f.contactId].supplierCompanyId == supplierId {
            var c := contacts[f.contactId];
            contacts := contacts[f.contactId := c.(contactPersonName := f.name, email := f.email, phoneNumber := f.phone)];
          }
        } else if !AllBlank(f) {
          pending := pending + [f];
        }
        i := i + 1;
      }
      assert forms[..|forms|] == forms;
    }

    /** `PerformDelete`: an unknown supplier, or one that still has products
        while the product-to-supplier rule is Restrict, is kept; otherwise
        it is removed together with its contacts, and its products lose
        their supplier. */
    method PerformDelete(id: int, isRestrict: bool) returns (outcome: DeleteOutcome)
      requires Valid()
      modifies this
      ensures Valid()
      ensures id !in old(suppliers) ==> outcome == DeleteNotFound
      ensures id in old(suppliers) && isRestrict && ProductsOf(old(productSupplier), id) != {} ==>
        outcome == DeleteRestricted(old(suppliers)[id].companyName, |ProductsOf(old(productSupplier), id)|)
      ensures !outcome.Deleted? ==> unchanged(this)
      ensures outcome.Deleted? <==>
        id in old(suppliers) && !(isRestrict && ProductsOf(old(productSupplier), id) != {})
      ensures outcome.Deleted? ==>
        && outcome.companyName == old(suppliers)[id].companyName
        && suppliers == old(suppliers) - {id}
        && contacts == WithoutContactsOf(old(contacts), id)
        && productSupplier == Detached(old(productSupplier), id)
    {
      if id !in suppliers {
        return DeleteNotFound;
      }
      var supplier := suppliers[id];
      var products := ProductsOf(productSupplier, id);
      if isRestrict && products != {} {
        return DeleteRestricted(supplier.companyName, |products|);
      }
      suppliers := suppliers - {id};
      contacts := WithoutContactsOf(contacts, id);
      productSupplier := Detached(productSupplier, id);
      outcome := Deleted(supplier.companyName);
    }
  }
}

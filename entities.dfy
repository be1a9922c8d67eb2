/** The persisted supplier entities (Models/Supplier.cs), with only the
    columns the controllers and view models read or write. Columns the schema
    marks required are plain strings; the others are nullable. */
module Entities {
  import opened Wrappers
  import opened ImageSniffing

  /** A row of the `supplier` table, without its navigation collections. */
  datatype Supplier = Supplier(
    supplierId: int,
    companyName: string,
    profileImage: Option<seq<byte>>,
    personName: Option<string>,
    department: Option<string>,
    email: Option<string>,
    phoneNumber: string,
    address: Option<string>,
    currency: Option<string>,
    paymentMethod: Option<string>,
    courier: Option<string>,
    portalStatus: string)

  /** A row of the `supplierContact` table. */
  datatype SupplierContact = SupplierContact(
    contactId: int,
    contactPersonName: Option<string>,
    email: Option<string>,
    phoneNumber: Option<string>,
    supplierCompanyId: int)
}

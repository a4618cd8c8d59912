/** The owner of listings (src/Million.Domain/Entities/Owner.cs): a name, an address that
    `ChangeAddress` reassigns in place, an optional photo and a birthday. */
module OwnerEntity {
  import opened Common

  datatype OwnerData = OwnerData(id: Guid, name: string, address: string, photo: string, birthday: int)

  /** The constructor: a blank name is rejected, then a blank address; a null photo is stored as
      the empty string and the birthday is stored without any check. */
  function Construct(id: Guid, name: string, address: string, photo: Option<string>, birthday: int): (r: Outcome<OwnerData>)
    ensures r.Returned? <==> !IsBlank(name) && !IsBlank(address)
    ensures IsBlank(name) ==> r == Threw(ArgumentException("Name is required", "name"))
    ensures !IsBlank(name) && IsBlank(address) ==> r == Threw(ArgumentException("Address is required", "address"))
    ensures r.Returned? ==>
      && r.value.id == id && r.value.name == name && r.value.address == address
      && r.value.photo == photo.GetOr("") && r.value.birthday == birthday
  {
    if IsBlank(name) then Threw(ArgumentException("Name is required", "name"))
    else if IsBlank(address) then Threw(ArgumentException("Address is required", "address"))
    else Returned(OwnerData(id, name, address, photo.GetOr(""), birthday))
  }

  /** `ChangeAddress` as a transition of the stored fields. */
  function AddressChanged(d: OwnerData, newAddress: string): (Option<Exception>, OwnerData) {
    if IsBlank(newAddress) then (Some(ArgumentException("Address is required", "newAddress")), d)
    else (None, d.(address := newAddress))
  }

  class Owner {
    var id: Guid
    var name: string
    var address: string
    var photo: string
    var birthday: int

    function Data(): OwnerData
      reads this
    {
      OwnerData(id, name, address, photo, birthday)
    }

    constructor Load(d: OwnerData)
      ensures Data() == d
    {
      id, name, address, photo, birthday := d.id, d.name, d.address, d.photo, d.birthday;
    }

    /** The public constructor (`Owner.Create` is the same with a fresh id). */
    static method New(id: Guid, name: string, address: string, photo: Option<string>, birthday: int) returns (r: Outcome<Owner>)
      ensures r.Returned? ==> fresh(r.value) && Construct(id, name, address, photo, birthday) == Returned(r.value.Data())
      ensures r.Threw? ==> Construct(id, name, address, photo, birthday) == Threw(r.exception)
    {
      var built := Construct(id, name, address, photo, birthday);
      if built.Threw? {
        r := Threw(built.exception);
      } else {
        var owner := new Owner.Load(built.value);
        r := Returned(owner);
      }
    }

    method ChangeAddress(newAddress: string) returns (thrown: Option<Exception>)
      modifies this
      ensures (thrown, Data()) == AddressChanged(old(Data()), newAddress)
    {
      if IsBlank(newAddress) {
        return Some(ArgumentException("Address is required", "newAddress"));
      }
      address := newAddress;
      thrown := None;
    }
  }

  /** `ChangeAddress` with a blank address throws and changes nothing; otherwise only the address
      changes. A constructed owner keeps a non-blank name and address through it. */
  lemma ChangeAddressEffect(d: OwnerData, newAddress: string)
    ensures AddressChanged(d, newAddress).0.Some? <==> IsBlank(newAddress)
    ensures IsBlank(newAddress) ==> AddressChanged(d, newAddress).1 == d
    ensures !IsBlank(newAddress) ==> AddressChanged(d, newAddress).1 == d.(address := newAddress)
    ensures !IsBlank(d.name) && !IsBlank(d.address) ==>
      !IsBlank(AddressChanged(d, newAddress).1.name) && !IsBlank(AddressChanged(d, newAddress).1.address)
  {
  }
}

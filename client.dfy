/** The customer's profile pages: personal data and the address book. (The
    order history is `Orders.OrderHistory`.) */
module Client {
  import opened Models
  import opened Text

  /** The validated fields of the address form. */
  datatype AddressForm = AddressForm(
    street: string, number: string, complement: string, district: string,
    city: string, state: string, cep: string)

  /** The address `manage_addresses` stores: the form's fields, the state
      upper-cased, attached to the current user. */
  function NewAddress(form: AddressForm, owner: Id): (a: Address)
    ensures a.owner == owner && a.state == Upper(form.state)
    ensures a.street == form.street && a.number == form.number && a.complement == form.complement
    ensures a.district == form.district && a.city == form.city && a.cep == form.cep
  {
    Address(form.street, form.number, form.complement, form.district, form.city, Upper(form.state), form.cep, owner)
  }

  /** The ids of a user's addresses (the `enderecos` relation). */
  function AddressesOf(addresses: map<Id, Address>, user: Id): (r: set<Id>)
    ensures forall id :: id in r <==> id in addresses && addresses[id].owner == user
  {
    set id | id in addresses && addresses[id].owner == user
  }

  /** What a profile page answers: the form again, 404, 403, a rolled-back
      commit, or the change made. */
  datatype Outcome = FormShown | NotFound | Forbidden | Failed | Added(id: Id) | Deleted | Updated

  /** The validated fields of the profile form. */
  datatype ProfileForm = ProfileForm(name: string, email: string, phone: string)

  /** The addresses table. */
  class AddressBook {
    var addresses: map<Id, Address>

    constructor ()
      ensures addresses == map[]
    {
      addresses := map[];
    }

    /** `manage_addresses` (POST). `form` holds the validated fields (None for a
        GET or an invalid form), `newId` the id the database assigns and
        `commitOk` whether the commit succeeded. */
    method AddAddress(actor: User, form: Option<AddressForm>, newId: Id, commitOk: bool)
      returns (o: Outcome)
      requires newId !in addresses
      modifies this
      ensures form.None? ==> o == FormShown
      ensures form.Some? && !commitOk ==> o == Failed
      ensures form.Some? && commitOk ==>
        o == Added(newId) && addresses == old(addresses)[newId := NewAddress(form.value, actor.id)]
      ensures !o.Added? ==> addresses == old(addresses)
    {
      if form.None? {
        return FormShown;
      }
      if !commitOk {
        return Failed;
      }
      addresses := addresses[newId := NewAddress(form.value, actor.id)];
      o := Added(newId);
    }

    /** `delete_address`: 404 for an unknown id, 403 for another user's
        address, otherwise that one address is removed. */
    method DeleteAddress(actor: User, id: Id, commitOk: bool) returns (o: Outcome)
      modifies this
      ensures id !in old(addresses) ==> o == NotFound
      ensures id in old(addresses) && old(addresses)[id].owner != actor.id ==> o == Forbidden
      ensures id in old(addresses) && old(addresses)[id].owner == actor.id ==>
        o == (if commitOk then Deleted else Failed)
      ensures o == Deleted ==> addresses == old(addresses) - {id}
      ensures o != Deleted ==> addresses == old(addresses)
    {
      if id !in addresses {
        return NotFound;
      }
      if addresses[id].owner != actor.id {
        return Forbidden;
      }
      if !commitOk {
        return Failed;
      }
      addresses := addresses - {id};
      o := Deleted;
    }
  }

  /** Adding an address adds it to its owner's book and to no other. */
  lemma AddAddressOwnership(addresses: map<Id, Address>, newId: Id, form: AddressForm, owner: Id, user: Id)
    requires newId !in addresses
    ensures AddressesOf(addresses[newId := NewAddress(form, owner)], user)
            == AddressesOf(addresses, user) + (if user == owner then {newId} else {})
  {
  }

  /** Deleting one of a user's addresses removes it from that user's book and
      leaves every other user's book as it was. */
  lemma DeleteAddressOwnership(addresses: map<Id, Address>, id: Id, owner: Id, user: Id)
    requires id in addresses && addresses[id].owner == owner
    ensures AddressesOf(addresses - {id}, user)
            == AddressesOf(addresses, user) - (if user == owner then {id} else {})
  {
  }

  /** `profile` (POST). The name and phone are stored as given, the e-mail
      lower-cased; a failed commit is rolled back. */
  method UpdateProfile(user: User, form: Option<ProfileForm>, commitOk: bool) returns (o: Outcome)
    modifies user`name, user`email, user`phone
    ensures form.None? ==> o == FormShown
    ensures form.Some? && !commitOk ==> o == Failed
    ensures form.Some? && commitOk ==>
      && o == Updated
      && user.name == form.value.name && user.email == Lower(form.value.email)
      && user.phone == form.value.phone
    ensures o != Updated ==>
      user.name == old(user.name) && user.email == old(user.email) && user.phone == old(user.phone)
  {
    if form.None? {
      return FormShown;
    }
    if !commitOk {
      return Failed;
    }
    user.name := form.value.name;
    user.email := Lower(form.value.email);
    user.phone := form.value.phone;
    o := Updated;
  }
}

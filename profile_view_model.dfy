/** The profile screen's view model (`ProfileViewModel.kt`): the user's
    profile loaded from the profile repository, the editable name fields and
    the address book with its default-address rule. The address operations
    compute a new list and reassign the `addresses` field; loading and saving
    run their coroutine to its end inside the call, with what the repository
    answered as a parameter. */
module ProfileVm {
  import opened Common
  import opened UserData
  import opened Ledger

  /** `ProfileState`. */
  datatype ProfileState = Loading | Success(user: User) | Error(message: string)

  /** How `repo.getUser(id)` ended: a user, `null`, or an exception. */
  datatype GetUserOutcome = Found(user: User) | NotFound | GetThrew(message: Option<string>)

  /** Whether `repo.updateUser(user)` returned a successful result. */
  datatype UpdateOutcome = UpdateSucceeded | UpdateFailed

  /** The address book's key. */
  function AddressId(a: Address): string {
    a.id
  }

  /** No address in the list has the id. */
  predicate NoneWithId(addresses: seq<Address>, id: string) {
    forall a :: a in addresses ==> a.id != id
  }

  /** `addresses.map { it.copy(isDefault = false) }`. */
  function ClearedDefaults(addresses: seq<Address>): (r: seq<Address>)
    ensures |r| == |addresses|
    ensures forall k :: 0 <= k < |r| ==> r[k] == addresses[k].(isDefault := false)
  {
    seq(|addresses|, k requires 0 <= k < |addresses| => addresses[k].(isDefault := false))
  }

  /** `addAddress(newAddress)`'s new list. An address with an empty id is
      added as its `copy()`, which is the same value. */
  function WithAdded(addresses: seq<Address>, newAddress: Address): (r: seq<Address>)
    ensures |r| == |addresses| + 1 && r[|addresses|] == newAddress
    ensures newAddress.isDefault ==>
              forall k :: 0 <= k < |addresses| ==> r[k] == addresses[k].(isDefault := false)
    ensures !newAddress.isDefault ==> r[..|addresses|] == addresses
  {
    var addressToAdd := newAddress;
    if addressToAdd.isDefault then ClearedDefaults(addresses) + [addressToAdd]
    else addresses + [addressToAdd]
  }

  /** An added default address is the only default of the new list. */
  lemma AddedDefaultIsOnlyDefault(addresses: seq<Address>, newAddress: Address)
    requires newAddress.isDefault
    ensures var r := WithAdded(addresses, newAddress);
            forall k :: 0 <= k < |r| ==> (r[k].isDefault <==> k == |addresses|)
  {
  }

  /** `addresses.map { ... }` in `updateAddress`: every entry with the id
      becomes the update; with a default update the others lose their flag. */
  function Replaced(addresses: seq<Address>, updated: Address): (r: seq<Address>)
    ensures |r| == |addresses|
  {
    seq(|addresses|, k requires 0 <= k < |addresses| =>
          if addresses[k].id == updated.id then updated
          else if updated.isDefault then addresses[k].(isDefault := false)
          else addresses[k])
  }

  /** `updateAddress(updated)`'s new list: an add when the list is empty or no
      entry has the id; otherwise every entry keeps its position, the entries
      with the id become the update, and the others lose their default flag
      exactly when the update is the default. */
  function WithUpdated(addresses: seq<Address>, updated: Address): (r: seq<Address>)
    ensures |addresses| == 0 || NoneWithId(addresses, updated.id) ==> r == WithAdded(addresses, updated)
    ensures !NoneWithId(addresses, updated.id) ==>
              && |r| == |addresses|
              && (forall k :: 0 <= k < |r| && addresses[k].id == updated.id ==> r[k] == updated)
              && (updated.isDefault ==> forall k :: 0 <= k < |r| && addresses[k].id != updated.id
                                                    ==> r[k] == addresses[k].(isDefault := false))
              && (!updated.isDefault ==> forall k :: 0 <= k < |r| && addresses[k].id != updated.id
                                                     ==> r[k] == addresses[k])
  {
    if |addresses| == 0 then WithAdded(addresses, updated)
    else if NoneWithId(addresses, updated.id) then WithAdded(addresses, updated)
    else Replaced(addresses, updated)
  }

  /** After a default update, every default entry is the update itself, and
      the update is listed. */
  lemma UpdatedDefaultIsOnlyDefault(addresses: seq<Address>, updated: Address)
    requires updated.isDefault
    ensures var r := WithUpdated(addresses, updated);
            updated in r && forall k :: 0 <= k < |r| && r[k].isDefault ==> r[k] == updated
  {
    var r := WithUpdated(addresses, updated);
    if NoneWithId(addresses, updated.id) {
      assert r[|addresses|] == updated;
    } else {
      var a :| a in addresses && a.id == updated.id;
      var k :| 0 <= k < |addresses| && addresses[k] == a;
      assert r[k] == updated;
    }
  }

  /** Applying the same update twice is the same as applying it once. */
  lemma UpdateIsIdempotent(addresses: seq<Address>, updated: Address)
    ensures WithUpdated(WithUpdated(addresses, updated), updated) == WithUpdated(addresses, updated)
  {
    var r := WithUpdated(addresses, updated);
    assert r[|r| - 1] == updated || !NoneWithId(addresses, updated.id) by {
      if NoneWithId(addresses, updated.id) {
        assert r[|addresses|] == updated;
      }
    }
    assert !NoneWithId(r, updated.id) by {
      if NoneWithId(addresses, updated.id) {
        assert r[|addresses|] in r;
      } else {
        var a :| a in addresses && a.id == updated.id;
        var k :| 0 <= k < |addresses| && addresses[k] == a;
        assert r[k] in r;
      }
    }
    var r2 := WithUpdated(r, updated);
    assert |r2| == |r|;
    forall k | 0 <= k < |r|
      ensures r2[k] == r[k]
    {
      if r[k].id != updated.id && NoneWithId(addresses, updated.id) && k < |addresses| {
        assert r[k] == if updated.isDefault then addresses[k].(isDefault := false) else addresses[k];
      }
    }
  }

  /** `addresses.filter { it.id != addressId }`. */
  function WithoutId(addresses: seq<Address>, addressId: string): (r: seq<Address>)
    ensures |r| <= |addresses|
    ensures forall a :: a in r ==> a in addresses && a.id != addressId
  {
    Others(addresses, AddressId, addressId)
  }

  /** Deleting keeps every entry with another id. */
  lemma {:induction false} DeleteKeepsOthers(addresses: seq<Address>, addressId: string)
    ensures forall a :: a in addresses && a.id != addressId ==> a in WithoutId(addresses, addressId)
  {
    if addresses != [] {
      DeleteKeepsOthers(addresses[1..], addressId);
      assert addresses == [addresses[0]] + addresses[1..];
    }
  }

  /** Deleting works on each part of a list separately, so the entries left
      keep their order. */
  lemma DeleteSplits(a: seq<Address>, b: seq<Address>, addressId: string)
    ensures WithoutId(a + b, addressId) == WithoutId(a, addressId) + WithoutId(b, addressId)
  {
    OthersConcat(a, b, AddressId, addressId);
  }

  /** Deleting an id no entry has changes nothing. */
  lemma DeleteAbsentId(addresses: seq<Address>, addressId: string)
    requires NoneWithId(addresses, addressId)
    ensures WithoutId(addresses, addressId) == addresses
  {
    OthersNone(addresses, AddressId, addressId);
  }

  /** Deleting an address just added under a new id gives back the list, with
      the defaults cleared when the added address was the default. */
  lemma DeleteUndoesAdd(addresses: seq<Address>, newAddress: Address)
    requires NoneWithId(addresses, newAddress.id)
    ensures WithoutId(WithAdded(addresses, newAddress), newAddress.id)
            == if newAddress.isDefault then ClearedDefaults(addresses) else addresses
  {
    var front := if newAddress.isDefault then ClearedDefaults(addresses) else addresses;
    assert WithAdded(addresses, newAddress) == front + [newAddress];
    OthersConcat(front, [newAddress], AddressId, newAddress.id);
    OthersSingle(newAddress, AddressId, newAddress.id);
    forall a | a in front ensures AddressId(a) != newAddress.id {
      var k :| 0 <= k < |front| && front[k] == a;
      assert front[k].id == addresses[k].id;
      assert addresses[k] in addresses;
    }
    OthersNone(front, AddressId, newAddress.id);
  }

  /** Updating an existing entry and then deleting its id is deleting the id,
      when the update is not the default. */
  lemma DeleteAfterUpdate(addresses: seq<Address>, updated: Address)
    requires !NoneWithId(addresses, updated.id) && !updated.isDefault
    ensures WithoutId(WithUpdated(addresses, updated), updated.id) == WithoutId(addresses, updated.id)
    decreases |addresses|
  {
    SameOthers(addresses, WithUpdated(addresses, updated), updated.id);
  }

  /** Two lists of one length that agree on every entry without the id, and
      have the id at the same positions, lose the same entries. */
  lemma {:induction false} SameOthers(a: seq<Address>, b: seq<Address>, id: string)
    requires |a| == |b|
    requires forall k :: 0 <= k < |a| ==> (a[k].id == id <==> b[k].id == id)
    requires forall k :: 0 <= k < |a| && a[k].id != id ==> a[k] == b[k]
    ensures WithoutId(a, id) == WithoutId(b, id)
  {
    if a != [] {
      SameOthers(a[1..], b[1..], id);
    }
  }

  /** The profile as `saveProfile` writes it: the loaded user with the edited
      names and the current addresses, each encoded on its own. */
  function SavedUser(user: User, firstName: string, lastName: string,
                     addresses: seq<Address>, codec: Codec<Address>): (r: User)
    ensures r.id == user.id && r.email == user.email && r.imagePath == user.imagePath
    ensures r.firstName == firstName && r.lastName == lastName
    ensures |r.savedAddresses| == |addresses|
  {
    user.(firstName := firstName, lastName := lastName, savedAddresses := EncodeAll(codec, addresses))
  }

  /** A saved profile reads back the same addresses, in order. */
  lemma SavedAddressesReadBack(user: User, firstName: string, lastName: string,
                               addresses: seq<Address>, codec: Codec<Address>)
    requires RoundTrips(codec)
    ensures GetAddresses(SavedUser(user, firstName, lastName, addresses, codec), codec) == addresses
  {
    DecodeEncodeAll(codec, addresses);
  }

  class ProfileViewModel {
    /** The `Address` JSON codec. */
    const codec: Codec<Address>
    var state: ProfileState
    var userData: User
    var firstName: string
    var lastName: string
    var imageUrl: string
    var addresses: seq<Address>
    var isLoading: bool
    /** The ids passed to `repo.getUser`, in order. */
    var lookups: seq<string>
    /** The users passed to `repo.updateUser`, in order. */
    var updates: seq<User>

    constructor (codec: Codec<Address>)
      ensures this.codec == codec
      ensures state == Loading && userData == User("", "", "", "", None, [])
      ensures firstName == "" && lastName == "" && imageUrl == "" && addresses == []
      ensures !isLoading && lookups == [] && updates == []
    {
      this.codec := codec;
      state := Loading;
      userData := User("", "", "", "", None, []);
      firstName := "";
      lastName := "";
      imageUrl := "";
      addresses := [];
      isLoading := false;
      lookups := [];
      updates := [];
    }

    /** `addAddress(newAddress)`. */
    method AddAddress(newAddress: Address)
      modifies this`addresses
      ensures addresses == WithAdded(old(addresses), newAddress)
    {
      var addressToAdd := newAddress;
      if addressToAdd.isDefault {
        addresses := ClearedDefaults(addresses) + [addressToAdd];
      } else {
        addresses := addresses + [addressToAdd];
      }
    }

    /** `updateAddress(updated)`. */
    method UpdateAddress(updated: Address)
      modifies this`addresses
      ensures addresses == WithUpdated(old(addresses), updated)
    {
      if |addresses| == 0 {
        AddAddress(updated);
        return;
      }
      if NoneWithId(addresses, updated.id) {
        AddAddress(updated);
        return;
      }
      addresses := Replaced(addresses, updated);
    }

    /** `deleteAddress(addressId)`. */
    method DeleteAddress(addressId: string)
      modifies this`addresses
      ensures addresses == WithoutId(old(addresses), addressId)
    {
      addresses := Others(addresses, AddressId, addressId);
    }

    /** `loadUserData()`, with `userId` the signed-in user's id (`null` when
        signed out) and `outcome` what `repo.getUser` did: a found user fills
        the fields and the address book; otherwise the state shows the error. */
    method LoadUserData(userId: Option<string>, outcome: GetUserOutcome)
      modifies this`state, this`userData, this`firstName, this`lastName, this`imageUrl, this`addresses,
               this`lookups
      ensures lookups == old(lookups) + [userId.GetOr("NULL")]
      ensures outcome.Found? ==>
                && state == Success(outcome.user) && userData == outcome.user
                && firstName == outcome.user.firstName && lastName == outcome.user.lastName
                && imageUrl == outcome.user.imagePath.GetOr("NULL")
                && addresses == GetAddresses(outcome.user, codec)
      ensures !outcome.Found? ==>
                && state == Error(if outcome.NotFound? then "User not found"
                                  else outcome.message.GetOr("Error loading profile"))
                && userData == old(userData) && firstName == old(firstName) && lastName == old(lastName)
                && imageUrl == old(imageUrl) && addresses == old(addresses)
    {
      state := Loading;
      lookups := lookups + [userId.GetOr("NULL")];
      match outcome {
        case Found(user) =>
          userData := user;
          firstName := user.firstName;
          lastName := user.lastName;
          imageUrl := user.imagePath.GetOr("NULL");
          addresses := GetAddresses(user, codec);
          state := Success(user);
        case NotFound =>
          state := Error("User not found");
        case GetThrew(message) =>
          state := Error(message.GetOr("Error loading profile"));
      }
    }

    /** `fetchProfileIfNeeded()`: load only when no profile is shown yet. */
    method FetchProfileIfNeeded(userId: Option<string>, outcome: GetUserOutcome)
      modifies this`state, this`userData, this`firstName, this`lastName, this`imageUrl, this`addresses,
               this`lookups
      ensures old(state).Success? ==>
                && state == old(state) && addresses == old(addresses) && lookups == old(lookups)
                && userData == old(userData) && firstName == old(firstName) && lastName == old(lastName)
                && imageUrl == old(imageUrl)
      ensures !old(state).Success? ==> lookups == old(lookups) + [userId.GetOr("NULL")]
      ensures !old(state).Success? && outcome.Found? ==>
                && state == Success(outcome.user) && userData == outcome.user
                && firstName == outcome.user.firstName && lastName == outcome.user.lastName
                && imageUrl == outcome.user.imagePath.GetOr("NULL")
                && addresses == GetAddresses(outcome.user, codec)
      ensures !old(state).Success? && !outcome.Found? ==>
                && state == Error(if outcome.NotFound? then "User not found"
                                  else outcome.message.GetOr("Error loading profile"))
                && userData == old(userData) && firstName == old(firstName) && lastName == old(lastName)
                && imageUrl == old(imageUrl) && addresses == old(addresses)
    {
      if !state.Success? {
        LoadUserData(userId, outcome);
      }
    }

    /** `saveProfile()`, with `saved` what `repo.updateUser` returned and
        `reload` what the refresh's `repo.getUser` did: without a loaded profile
        the state shows "User not loaded"; otherwise the profile with the edited
        names and the current addresses is written, then reloaded on success. */
    method SaveProfile(userId: Option<string>, saved: UpdateOutcome, reload: GetUserOutcome)
      modifies this`state, this`userData, this`firstName, this`lastName, this`imageUrl, this`addresses,
               this`lookups, this`updates, this`isLoading
      ensures !isLoading
      ensures !old(state).Success? ==>
                && state == Error("User not loaded") && updates == old(updates) && lookups == old(lookups)
                && addresses == old(addresses)
                && userData == old(userData) && firstName == old(firstName) && lastName == old(lastName)
                && imageUrl == old(imageUrl)
      ensures old(state).Success? ==>
                updates == old(updates) + [SavedUser(old(state).user, old(firstName), old(lastName),
                                                     old(addresses), codec)]
      ensures old(state).Success? && saved.UpdateFailed? ==>
                && state == Error("Failed to save profile") && lookups == old(lookups) && addresses == old(addresses)
                && userData == old(userData) && firstName == old(firstName) && lastName == old(lastName)
                && imageUrl == old(imageUrl)
      ensures old(state).Success? && saved.UpdateSucceeded? ==>
                lookups == old(lookups) + [userId.GetOr("NULL")]
      ensures old(state).Success? && saved.UpdateSucceeded? && reload.Found? ==>
                && state == Success(reload.user) && userData == reload.user
                && firstName == reload.user.firstName && lastName == reload.user.lastName
                && imageUrl == reload.user.imagePath.GetOr("NULL")
                && addresses == GetAddresses(reload.user, codec)
      ensures old(state).Success? && saved.UpdateSucceeded? && !reload.Found? ==>
                && state == Error(if reload.NotFound? then "User not found"
                                  else reload.message.GetOr("Error loading profile"))
                && userData == old(userData) && firstName == old(firstName) && lastName == old(lastName)
                && imageUrl == old(imageUrl) && addresses == old(addresses)
    {
      isLoading := true;
      if !state.Success? {
        state := Error("User not loaded");
      } else {
        var currentUser := state.user;
        var updatedUser := currentUser.(firstName := firstName, lastName := lastName,
                                        savedAddresses := EncodeAll(codec, addresses));
        updates := updates + [updatedUser];
        if saved.UpdateSucceeded? {
          LoadUserData(userId, reload);
        } else {
          state := Error("Failed to save profile");
        }
      }
      isLoading := false;
    }
  }

  /** Saving and reloading the profile the backend stored keeps the address
      book as it was edited. */
  method SaveThenReloadKeepsAddresses(vm: ProfileViewModel, userId: Option<string>)
    requires vm.state.Success? && RoundTrips(vm.codec)
    modifies vm
    ensures vm.addresses == old(vm.addresses)
    ensures vm.updates != [] && vm.state.Success? && vm.state.user == vm.updates[|vm.updates| - 1]
  {
    var stored := SavedUser(vm.state.user, vm.firstName, vm.lastName, vm.addresses, vm.codec);
    SavedAddressesReadBack(vm.state.user, vm.firstName, vm.lastName, vm.addresses, vm.codec);
    vm.SaveProfile(userId, UpdateSucceeded, Found(stored));
  }
}

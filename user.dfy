/** The user profile record, its document serialiser `toMap`/`fromMap`, and the
    decoded address book with its default address (`User.kt`, `Address.kt`). */
module UserData {
  import opened Common

  /** A saved postal address; `id` defaults to a random UUID at construction. */
  datatype Address = Address(
    id: string,
    street: string,
    city: string,
    state: string,
    postalCode: string,
    country: string,
    isDefault: bool)

  /** The user profile; `savedAddresses` holds independently JSON-encoded addresses. */
  datatype User = User(
    id: string,
    firstName: string,
    lastName: string,
    email: string,
    imagePath: Option<string>,
    savedAddresses: seq<string>)

  /** `User.toMap()`: five fixed keys, plus `ImagePath` only when the path is set. */
  function ToMap(u: User): (m: Data)
    ensures {"Id", "FirstName", "LastName", "Email", "SavedAddresses"} <= m.Keys
    ensures "ImagePath" in m <==> u.imagePath.Some?
    ensures m.Keys <= {"Id", "FirstName", "LastName", "Email", "SavedAddresses", "ImagePath"}
  {
    var base := map[
      "Id" := Str(u.id),
      "FirstName" := Str(u.firstName),
      "LastName" := Str(u.lastName),
      "Email" := Str(u.email),
      "SavedAddresses" := List(Strs(u.savedAddresses))];
    match u.imagePath
    case Some(p) => base["ImagePath" := Str(p)]
    case None => base
  }

  /** `map[key] as String`: the cast throws, and `fromMap` returns null, unless it is a string. */
  function RequiredString(m: Data, key: string): (r: Option<string>)
    ensures r.Some? <==> Field(m, key).Str?
    ensures r.Some? ==> r.value == Field(m, key).s
  {
    match Field(m, key)
    case Str(s) => Some(s)
    case _ => None
  }

  /** `User.fromMap(map)`. */
  function FromMap(m: Data): (r: Option<User>)
    ensures r.Some? <==> (Field(m, "Id").Str? && Field(m, "FirstName").Str?
                         && Field(m, "LastName").Str? && Field(m, "Email").Str?)
    ensures r.Some? ==> (r.value.imagePath.Some? <==> Field(m, "ImagePath").Str?)
    ensures r.Some? && !Field(m, "SavedAddresses").List? ==> r.value.savedAddresses == []
  {
    match (RequiredString(m, "Id"), RequiredString(m, "FirstName"),
           RequiredString(m, "LastName"), RequiredString(m, "Email"))
    case (Some(id), Some(first), Some(last), Some(email)) =>
      Some(User(
        id, first, last, email,
        match Field(m, "ImagePath") case Str(p) => Some(p) case _ => None,
        match Field(m, "SavedAddresses") case List(vs) => StringsOf(vs) case _ => []))
    case _ => None
  }

  /** The serialiser round-trips: every user survives `fromMap(toMap(u))`. */
  lemma FromMapToMap(u: User)
    ensures FromMap(ToMap(u)) == Some(u)
  {
    var m := ToMap(u);
    assert Field(m, "Id") == Str(u.id);
    assert Field(m, "FirstName") == Str(u.firstName);
    assert Field(m, "LastName") == Str(u.lastName);
    assert Field(m, "Email") == Str(u.email);
    assert Field(m, "SavedAddresses") == List(Strs(u.savedAddresses));
    assert u.imagePath.Some? ==> Field(m, "ImagePath") == Str(u.imagePath.value);
    assert u.imagePath.None? ==> Field(m, "ImagePath") == Null;
    StringsOfStrs(u.savedAddresses);
  }

  /** `getAddresses()`: the saved addresses that decode, in order. */
  function GetAddresses(u: User, codec: Codec<Address>): (r: seq<Address>)
    ensures |r| <= |u.savedAddresses|
  {
    DecodeAll(codec, u.savedAddresses)
  }

  /** `firstOrNull { it.isDefault }`. */
  function FirstDefault(addrs: seq<Address>): (r: Option<Address>)
    ensures r.Some? ==> r.value in addrs && r.value.isDefault
    ensures r.None? <==> forall a :: a in addrs ==> !a.isDefault
    ensures r.Some? ==> exists k :: 0 <= k < |addrs| && addrs[k] == r.value
                                  && forall j :: 0 <= j < k ==> !addrs[j].isDefault
  {
    if addrs == [] then None
    else if addrs[0].isDefault then Some(addrs[0])
    else
      var r := FirstDefault(addrs[1..]);
      if r.Some? then
        var k :| 0 <= k < |addrs[1..]| && addrs[1..][k] == r.value
                 && forall j :: 0 <= j < k ==> !addrs[1..][j].isDefault;
        assert addrs[k + 1] == r.value;
        r
      else
        r
  }

  /** `getDefaultAddress()`: the first decoded address flagged as default. */
  function GetDefaultAddress(u: User, codec: Codec<Address>): (r: Option<Address>)
    ensures r.Some? ==> r.value in GetAddresses(u, codec) && r.value.isDefault
    ensures r.None? <==> forall a :: a in GetAddresses(u, codec) ==> !a.isDefault
  {
    FirstDefault(GetAddresses(u, codec))
  }
}

/** An account that can sign in (src/Million.Domain/Entities/User.cs): its e-mail is stored
    lower-cased, it starts active, and it can be deactivated, reactivated or given a new
    password hash in place. */
module UserEntity {
  import opened Common

  const OwnerRole: string := "Owner"
  const ClientRole: string := "Client"

  datatype UserData = UserData(
    id: Guid,
    email: string,
    passwordHash: string,
    role: string,
    firstName: string,
    lastName: string,
    ownerId: Option<Guid>,
    createdAt: int,
    isActive: bool)

  /** The constructor: blank e-mail, password hash, role, first name and last name are rejected,
      checked in that order. `now` is the `DateTime.UtcNow` read for `CreatedAt`. */
  function Construct(id: Guid, email: string, passwordHash: string, role: string, firstName: string,
                     lastName: string, ownerId: Option<Guid>, now: int): (r: Outcome<UserData>)
    ensures r.Returned? <==> !IsBlank(email) && !IsBlank(passwordHash) && !IsBlank(role) && !IsBlank(firstName) && !IsBlank(lastName)
    ensures IsBlank(email) ==> r == Threw(ArgumentException("Email is required", "email"))
    ensures !IsBlank(email) && IsBlank(passwordHash) ==> r == Threw(ArgumentException("Password hash is required", "passwordHash"))
    ensures !IsBlank(email) && !IsBlank(passwordHash) && IsBlank(role) ==> r == Threw(ArgumentException("Role is required", "role"))
    ensures !IsBlank(email) && !IsBlank(passwordHash) && !IsBlank(role) && IsBlank(firstName) ==>
      r == Threw(ArgumentException("First name is required", "firstName"))
    ensures !IsBlank(email) && !IsBlank(passwordHash) && !IsBlank(role) && !IsBlank(firstName) && IsBlank(lastName) ==>
      r == Threw(ArgumentException("Last name is required", "lastName"))
    ensures r.Returned? ==>
      && r.value.isActive && r.value.id == id && r.value.email == ToLowerInvariant(email)
      && r.value.passwordHash == passwordHash && r.value.role == role && r.value.firstName == firstName
      && r.value.lastName == lastName && r.value.ownerId == ownerId && r.value.createdAt == now
  {
    if IsBlank(email) then Threw(ArgumentException("Email is required", "email"))
    else if IsBlank(passwordHash) then Threw(ArgumentException("Password hash is required", "passwordHash"))
    else if IsBlank(role) then Threw(ArgumentException("Role is required", "role"))
    else if IsBlank(firstName) then Threw(ArgumentException("First name is required", "firstName"))
    else if IsBlank(lastName) then Threw(ArgumentException("Last name is required", "lastName"))
    else Returned(UserData(id, ToLowerInvariant(email), passwordHash, role, firstName, lastName, ownerId, now, true))
  }

  /** `User.CreateOwner`: a user with the owner role, linked to the given owner. */
  function CreatedOwner(email: string, passwordHash: string, firstName: string, lastName: string, ownerId: Guid, id: Guid, now: int): Outcome<UserData> {
    Construct(id, email, passwordHash, OwnerRole, firstName, lastName, Some(ownerId), now)
  }

  /** `User.CreateClient`: a user with the client role and no owner. */
  function CreatedClient(email: string, passwordHash: string, firstName: string, lastName: string, id: Guid, now: int): Outcome<UserData> {
    Construct(id, email, passwordHash, ClientRole, firstName, lastName, None, now)
  }

  function Deactivated(d: UserData): UserData { d.(isActive := false) }
  function Activated(d: UserData): UserData { d.(isActive := true) }

  /** `UpdatePassword` as a transition of the stored fields. */
  function PasswordUpdated(d: UserData, newPasswordHash: string): (Option<Exception>, UserData) {
    if IsBlank(newPasswordHash) then (Some(ArgumentException("Password hash is required", "newPasswordHash")), d)
    else (None, d.(passwordHash := newPasswordHash))
  }

  class User {
    var id: Guid
    var email: string
    var passwordHash: string
    var role: string
    var firstName: string
    var lastName: string
    var ownerId: Option<Guid>
    var createdAt: int
    var isActive: bool

    function Data(): UserData
      reads this
    {
      UserData(id, email, passwordHash, role, firstName, lastName, ownerId, createdAt, isActive)
    }

    constructor Load(d: UserData)
      ensures Data() == d
    {
      id, email, passwordHash, role, firstName := d.id, d.email, d.passwordHash, d.role, d.firstName;
      lastName, ownerId, createdAt, isActive := d.lastName, d.ownerId, d.createdAt, d.isActive;
    }

    /** The public constructor: a new object, or the exception it throws. */
    static method New(id: Guid, email: string, passwordHash: string, role: string, firstName: string,
                      lastName: string, ownerId: Option<Guid>, now: int) returns (r: Outcome<User>)
      ensures r.Returned? ==> fresh(r.value) && Construct(id, email, passwordHash, role, firstName, lastName, ownerId, now) == Returned(r.value.Data())
      ensures r.Threw? ==> Construct(id, email, passwordHash, role, firstName, lastName, ownerId, now) == Threw(r.exception)
    {
      var built := Construct(id, email, passwordHash, role, firstName, lastName, ownerId, now);
      if built.Threw? {
        r := Threw(built.exception);
      } else {
        var user := new User.Load(built.value);
        r := Returned(user);
      }
    }

    method Deactivate()
      modifies this
      ensures Data() == Deactivated(old(Data()))
    {
      isActive := false;
    }

    method Activate()
      modifies this
      ensures Data() == Activated(old(Data()))
    {
      isActive := true;
    }

    method UpdatePassword(newPasswordHash: string) returns (thrown: Option<Exception>)
      modifies this
      ensures (thrown, Data()) == PasswordUpdated(old(Data()), newPasswordHash)
    {
      if IsBlank(newPasswordHash) {
        return Some(ArgumentException("Password hash is required", "newPasswordHash"));
      }
      passwordHash := newPasswordHash;
      thrown := None;
    }
  }

  /** The stored e-mail never holds an upper-case ASCII letter, so two e-mails that differ only in
      the case of such letters are stored alike. */
  lemma {:induction false} StoredEmailLowerCase(id: Guid, email: string, otherEmail: string, passwordHash: string, role: string,
                                                firstName: string, lastName: string, ownerId: Option<Guid>, now: int)
    requires Construct(id, email, passwordHash, role, firstName, lastName, ownerId, now).Returned?
    requires |otherEmail| == |email| && forall i :: 0 <= i < |email| ==> ToLowerChar(otherEmail[i]) == ToLowerChar(email[i])
    ensures var e := Construct(id, email, passwordHash, role, firstName, lastName, ownerId, now).value.email;
      forall i :: 0 <= i < |e| ==> !IsAsciiUpper(e[i])
    ensures !IsBlank(otherEmail) ==>
      Construct(id, otherEmail, passwordHash, role, firstName, lastName, ownerId, now) ==
      Construct(id, email, passwordHash, role, firstName, lastName, ownerId, now)
  {
    if !IsBlank(otherEmail) {
      assert ToLowerInvariant(otherEmail) == ToLowerInvariant(email);
    }
  }

  /** `CreateOwner` gives the owner role and the owner's id, `CreateClient` the client role and no owner. */
  lemma FactoryRoles(email: string, passwordHash: string, firstName: string, lastName: string, ownerId: Guid, id: Guid, now: int)
    requires !IsBlank(email) && !IsBlank(passwordHash) && !IsBlank(firstName) && !IsBlank(lastName)
    ensures CreatedOwner(email, passwordHash, firstName, lastName, ownerId, id, now).Returned?
    ensures CreatedOwner(email, passwordHash, firstName, lastName, ownerId, id, now).value.role == "Owner"
    ensures CreatedOwner(email, passwordHash, firstName, lastName, ownerId, id, now).value.ownerId == Some(ownerId)
    ensures CreatedClient(email, passwordHash, firstName, lastName, id, now).Returned?
    ensures CreatedClient(email, passwordHash, firstName, lastName, id, now).value.role == "Client"
    ensures CreatedClient(email, passwordHash, firstName, lastName, id, now).value.ownerId == None
  {
    assert OwnerRole[0] == 'O' && ClientRole[0] == 'C';
  }

  /** Deactivate and Activate set the flag whatever it was, are idempotent, and change nothing else. */
  lemma ActivationIdempotent(d: UserData)
    ensures !Deactivated(d).isActive && Activated(d).isActive
    ensures Deactivated(Deactivated(d)) == Deactivated(d) && Activated(Activated(d)) == Activated(d)
    ensures Deactivated(d).(isActive := d.isActive) == d && Activated(d).(isActive := d.isActive) == d
  {
  }

  /** `UpdatePassword` rejects a blank hash without change; otherwise only the hash changes. */
  lemma UpdatePasswordEffect(d: UserData, newPasswordHash: string)
    ensures PasswordUpdated(d, newPasswordHash).0.Some? <==> IsBlank(newPasswordHash)
    ensures IsBlank(newPasswordHash) ==> PasswordUpdated(d, newPasswordHash).1 == d
    ensures !IsBlank(newPasswordHash) ==> PasswordUpdated(d, newPasswordHash).1 == d.(passwordHash := newPasswordHash)
  {
  }
}

/**
 * accounts/models.py: the user record, its field limits and defaults, and the manager that
 * creates ordinary users and superusers.
 */
module Users {
  import opened Wrappers

  const UsernameMaxLength: nat := 20
  const FullnameMaxLength: nat := 10
  const EmailMaxLength: nat := 100

  /** What `set_password` stores: the hash of a password, or Django's unusable password for None. */
  datatype Password = Hashed(hash: string) | Unusable

  datatype UserRecord = UserRecord(
    id: nat,
    username: string,
    email: string,
    fullname: string,
    password: Password,
    isActive: bool,
    isStaff: bool,
    isSuperuser: bool)

  /** User.__str__ is the username. */
  function Str(u: UserRecord): string
  {
    u.username
  }

  /** The `**extra_fields` create_user and create_superuser accept: the three account flags. */
  datatype ExtraFields = ExtraFields(isStaff: Option<bool>, isSuperuser: Option<bool>, isActive: Option<bool>)

  /** `dict.setdefault`: keeps a supplied value, otherwise supplies the default. */
  function SetDefault(supplied: Option<bool>, default: bool): (r: Option<bool>)
    ensures r.Some?
    ensures supplied.Some? ==> r == supplied
    ensures supplied.None? ==> r == Some(default)
  {
    if supplied.Some? then supplied else Some(default)
  }

  /** The extra fields create_superuser hands to create_user. */
  function SuperuserExtra(extra: ExtraFields): (r: ExtraFields)
    ensures r.isStaff.Some? && r.isSuperuser.Some? && r.isActive.Some?
  {
    ExtraFields(
      SetDefault(extra.isStaff, true),
      SetDefault(extra.isSuperuser, true),
      SetDefault(extra.isActive, true))
  }

  /**
   * The record create_user saves: the normalized email, the given names, the supplied flags
   * or the model defaults (inactive, not staff, not superuser), and the hashed password.
   */
  function NewUser(
    id: nat, username: string, email: string, fullname: string, password: Option<string>,
    extra: ExtraFields, normalize: string -> string, hash: string -> string): (u: UserRecord)
    ensures u.id == id && u.username == username && u.fullname == fullname
    ensures u.email == normalize(email)
    ensures password.Some? ==> u.password == Hashed(hash(password.value))
    ensures password.None? ==> u.password == Unusable
    ensures u.isActive == (extra.isActive == Some(true))
    ensures u.isStaff == (extra.isStaff == Some(true))
    ensures u.isSuperuser == (extra.isSuperuser == Some(true))
  {
    UserRecord(
      id, username, normalize(email), fullname,
      if password.Some? then Hashed(hash(password.value)) else Unusable,
      if extra.isActive.Some? then extra.isActive.value else false,
      if extra.isStaff.Some? then extra.isStaff.value else false,
      if extra.isSuperuser.Some? then extra.isSuperuser.value else false)
  }

  /** A user created with no flags waits inactive for e-mail verification and is not staff. */
  lemma NewUserDefaults(id: nat, username: string, email: string, fullname: string, password: Option<string>,
                        normalize: string -> string, hash: string -> string)
    ensures var u := NewUser(id, username, email, fullname, password, ExtraFields(None, None, None), normalize, hash);
      !u.isActive && !u.isStaff && !u.isSuperuser
  {
  }

  /** A superuser gets each flag as supplied by the caller, and true for each flag not supplied. */
  lemma SuperuserFlags(id: nat, username: string, email: string, fullname: string, password: Option<string>,
                       extra: ExtraFields, normalize: string -> string, hash: string -> string)
    ensures var u := NewUser(id, username, email, fullname, password, SuperuserExtra(extra), normalize, hash);
      && u.isStaff == (extra.isStaff.None? || extra.isStaff == Some(true))
      && u.isSuperuser == (extra.isSuperuser.None? || extra.isSuperuser == Some(true))
      && u.isActive == (extra.isActive.None? || extra.isActive == Some(true))
  {
  }

  /** The user table: rows by primary key, and the next key the database hands out. */
  class UserTable {
    var rows: map<nat, UserRecord>
    var nextId: nat

    /** Every row is stored under its own id, below the next id; usernames are unique. */
    ghost predicate Valid()
      reads this
    {
      && (forall id :: id in rows ==> rows[id].id == id && id < nextId)
      && (forall a, b :: a in rows && b in rows && rows[a].username == rows[b].username ==> a == b)
    }

    predicate UsernameTaken(username: string)
      reads this
    {
      exists id :: id in rows && rows[id].username == username
    }

    constructor ()
      ensures Valid() && rows == map[] && nextId == 1
    {
      rows := map[];
      nextId := 1;
    }

    /**
     * create_user: saves a new row under the next id, or, when the username is taken, fails
     * the unique constraint (None) and saves nothing.
     */
    method CreateUser(username: string, email: string, fullname: string, password: Option<string>,
                      extra: ExtraFields, normalize: string -> string, hash: string -> string)
      returns (id: Option<nat>)
      requires Valid()
      modifies this
      ensures Valid()
      ensures id.None? <==> old(UsernameTaken(username))
      ensures id.None? ==> rows == old(rows) && nextId == old(nextId)
      ensures id.Some? ==> id.value == old(nextId) && id.value !in old(rows) && nextId == old(nextId) + 1
      ensures id.Some? ==> rows == old(rows)[id.value := NewUser(id.value, username, email, fullname, password, extra, normalize, hash)]
    {
      if UsernameTaken(username) {
        return None;
      }
      var user := NewUser(nextId, username, email, fullname, password, extra, normalize, hash);
      rows := rows[nextId := user];
      id := Some(nextId);
      nextId := nextId + 1;
    }

    /** create_superuser: create_user with is_staff, is_superuser and is_active defaulting to true. */
    method CreateSuperuser(username: string, email: string, fullname: string, password: Option<string>,
                           extra: ExtraFields, normalize: string -> string, hash: string -> string)
      returns (id: Option<nat>)
      requires Valid()
      modifies this
      ensures Valid()
      ensures id.None? <==> old(UsernameTaken(username))
      ensures id.None? ==> rows == old(rows) && nextId == old(nextId)
      ensures id.Some? ==> id.value == old(nextId) && id.value !in old(rows) && nextId == old(nextId) + 1
      ensures id.Some? ==> rows == old(rows)[id.value := NewUser(id.value, username, email, fullname, password, SuperuserExtra(extra), normalize, hash)]
    {
      id := CreateUser(username, email, fullname, password, SuperuserExtra(extra), normalize, hash);
    }

    /**
     * `user.save()` on an existing row: the row is replaced, which keeps usernames unique as long
     * as no other row holds the new username.
     */
    method Save(u: UserRecord)
      requires Valid() && u.id in rows
      requires forall id :: id in rows && rows[id].username == u.username ==> id == u.id
      modifies this`rows
      ensures Valid()
      ensures rows == old(rows)[u.id := u]
    {
      rows := rows[u.id := u];
    }

    /** `user.delete()`: the row is gone; every other row stays as it was. */
    method Remove(id: nat)
      requires Valid()
      modifies this`rows
      ensures Valid()
      ensures rows == old(rows) - {id}
    {
      rows := rows - {id};
    }
  }
}

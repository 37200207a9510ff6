/**
 * The users table and UserModel (server/back-end/db/models/users.js) as an
 * in-memory table. The password is stored only as its hash; the listing
 * leaves the hash out.
 */
module Users {
  import opened Common

  datatype User = User(
    id: nat,
    username: string,
    passwordHash: string,
    email: Option<string>,
    createdAt: int,
    updatedAt: int)

  /** A row as findAll selects it: every column but password_hash. */
  datatype UserListing = UserListing(id: nat, username: string, email: Option<string>, createdAt: int, updatedAt: int)

  /**
   * The fields `update` receives; None stands for undefined, which leaves the column alone. The email
   * may also be given as null (Some(None)), which writes NULL.
   */
  datatype UserPatch = UserPatch(username: Option<string>, passwordHash: Option<string>, email: Option<Option<string>>)

  predicate HasFields(p: UserPatch)
  {
    p.username.Some? || p.passwordHash.Some? || p.email.Some?
  }

  /** The row after `update`: each provided field replaced, the others kept, updated_at refreshed. */
  function Patched(u: User, p: UserPatch, now: int): User
  {
    User(u.id,
      if p.username.Some? then p.username.value else u.username,
      if p.passwordHash.Some? then p.passwordHash.value else u.passwordHash,
      if p.email.Some? then p.email.value else u.email,
      u.createdAt, now)
  }

  /** `email || null`: an absent or empty email is stored as NULL. */
  function StoredEmail(email: Option<string>): (e: Option<string>)
    ensures e.Some? <==> email.Some? && |email.value| > 0
    ensures e.Some? ==> e == email
  {
    if email.Some? && |email.value| > 0 then email else None
  }

  predicate IdsDistinct(rows: seq<User>)
  {
    forall i, j :: 0 <= i < j < |rows| ==> rows[i].id != rows[j].id
  }

  function Ids(rows: seq<User>): (ids: seq<nat>)
    ensures |ids| == |rows| && forall k :: 0 <= k < |rows| ==> ids[k] == rows[k].id
  {
    seq(|rows|, k requires 0 <= k < |rows| => rows[k].id)
  }

  function Listing(u: User): UserListing
  {
    UserListing(u.id, u.username, u.email, u.createdAt, u.updatedAt)
  }

  class UserTable {
    var rows: seq<User>

    ghost predicate Valid()
      reads this
    {
      IdsDistinct(rows)
    }

    constructor ()
      ensures Valid() && rows == []
    {
      rows := [];
    }

    /** create: appends one row with a fresh id and returns it; a falsy email is stored as NULL. */
    method Create(username: string, passwordHash: string, email: Option<string>, now: int) returns (u: User)
      requires Valid()
      modifies this
      ensures Valid()
      ensures rows == old(rows) + [u]
      ensures forall k :: 0 <= k < |old(rows)| ==> old(rows)[k].id < u.id
      ensures u.username == username && u.passwordHash == passwordHash && u.email == StoredEmail(email)
      ensures u.createdAt == now && u.updatedAt == now
    {
      var id := NextId(Ids(rows));
      u := User(id, username, passwordHash, StoredEmail(email), now, now);
      rows := rows + [u];
    }

    /** findById: the row with that id, or nothing. */
    function FindById(id: int): (r: Option<User>)
      reads this
      ensures r.Some? ==> r.value in rows && r.value.id == id
      ensures r.None? ==> forall k :: 0 <= k < |rows| ==> rows[k].id != id
    {
      match FindIndex(rows, (u: User) => u.id == id)
        case None => None
        case Some(i) => Some(rows[i])
    }

    /** findByUsername: the first row with that username, or nothing. */
    function FindByUsername(username: string): (r: Option<User>)
      reads this
      ensures r.Some? ==> r.value in rows && r.value.username == username
      ensures r.None? ==> forall k :: 0 <= k < |rows| ==> rows[k].username != username
    {
      match FindIndex(rows, (u: User) => u.username == username)
        case None => None
        case Some(i) => Some(rows[i])
    }

    /** findByEmail: the first row holding that email; a NULL email matches nothing. */
    function FindByEmail(email: string): (r: Option<User>)
      reads this
      ensures r.Some? ==> r.value in rows && r.value.email == Some(email)
      ensures r.None? ==> forall k :: 0 <= k < |rows| ==> rows[k].email != Some(email)
    {
      match FindIndex(rows, (u: User) => u.email == Some(email))
        case None => None
        case Some(i) => Some(rows[i])
    }

    /** update: exactly the provided fields change on the row with that id; with none, nothing is written. */
    method Update(id: int, patch: UserPatch, now: int) returns (r: Option<User>)
      requires Valid()
      modifies this
      ensures Valid()
      ensures |rows| == |old(rows)|
      ensures forall k :: 0 <= k < |rows| ==>
        rows[k] == (if old(rows)[k].id == id && HasFields(patch) then Patched(old(rows)[k], patch, now) else old(rows)[k])
      ensures !HasFields(patch) ==> rows == old(rows)
      ensures r == FindById(id)
    {
      var updates: seq<string> := [];
      if patch.username.Some? { updates := updates + ["username"]; }
      if patch.passwordHash.Some? { updates := updates + ["password_hash"]; }
      if patch.email.Some? { updates := updates + ["email"]; }
      if |updates| == 0 {
        r := FindById(id);
        return;
      }
      var i := FindIndex(rows, (u: User) => u.id == id);
      if i.Some? {
        rows := rows[i.value := Patched(rows[i.value], patch, now)];
      }
      r := FindById(id);
    }

    /** delete: removes the row with that id. */
    method Delete(id: int)
      requires Valid()
      modifies this
      ensures Valid()
      ensures rows == Filter(old(rows), (u: User) => u.id != id)
    {
      rows := Filter(rows, (u: User) => u.id != id);
      DeleteKeepsDistinct(old(rows), id);
    }

    /** findAll: every row in table order, without its password hash. */
    function FindAll(): (r: seq<UserListing>)
      reads this
      ensures |r| == |rows|
      ensures forall k :: 0 <= k < |r| ==>
        r[k].id == rows[k].id && r[k].username == rows[k].username && r[k].email == rows[k].email
    {
      var rs := rows;
      seq(|rs|, k requires 0 <= k < |rs| => Listing(rs[k]))
    }
  }

  lemma {:induction false} DeleteKeepsDistinct(rows: seq<User>, id: int)
    requires IdsDistinct(rows)
    ensures IdsDistinct(Filter(rows, (u: User) => u.id != id))
    decreases |rows|
  {
    if |rows| > 0 {
      DeleteKeepsDistinct(rows[1..], id);
      var rest := Filter(rows[1..], (u: User) => u.id != id);
      forall k | 0 <= k < |rest| ensures rest[k].id != rows[0].id {
        assert rest[k] in rows[1..];
      }
    }
  }

  /** A password change touches the hash alone: id, username, email and creation time stay. */
  lemma PasswordPatchOnlyHash(u: User, hash: string, now: int)
    ensures var p := Patched(u, UserPatch(None, Some(hash), None), now);
      p.passwordHash == hash && p.id == u.id && p.username == u.username && p.email == u.email &&
      p.createdAt == u.createdAt
  {
  }

  /** Once a username is new to the table, the row create appends is the one findByUsername returns. */
  lemma CreatedIsFound(t: UserTable, u: User)
    requires |t.rows| > 0 && t.rows[|t.rows| - 1] == u
    requires forall k :: 0 <= k < |t.rows| - 1 ==> t.rows[k].username != u.username
    ensures t.FindByUsername(u.username) == Some(u)
  {
    var r := t.FindByUsername(u.username);
    assert u in t.rows;
    if r.Some? {
      var i :| 0 <= i < |t.rows| && t.rows[i] == r.value;
      assert i == |t.rows| - 1;
    }
  }
}

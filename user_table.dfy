/** The `user` table the back ends query through Prisma, as a sequence of
    rows in insertion order. */
module UserTable {

  import opened Wrappers

  /** A row of the `user` table. `password` holds the Argon2 hash, never
      the plaintext. `name` is optional: the NestJS registration creates
      users without one. */
  datatype User = User(
    id: string,
    email: string,
    name: Option<string>,
    password: string,
    createdAt: int)

  /** The table's unique keys: `id` and `email`. */
  ghost predicate Unique(users: seq<User>) {
    forall i, j :: 0 <= i < j < |users| ==>
      users[i].id != users[j].id && users[i].email != users[j].email
  }

  /** The two unique columns a `findUnique` can look a user up by. */
  datatype Key = ByEmail | ById

  function KeyOf(u: User, key: Key): string {
    match key
    case ByEmail => u.email
    case ById => u.id
  }

  /** `findUnique({ where: { email } })` and `findUnique({ where: { id } })`:
      the first row holding `value` in the `key` column, if any. */
  function FindUnique(users: seq<User>, key: Key, value: string): (r: Option<User>)
    ensures r.Some? ==> r.value in users && KeyOf(r.value, key) == value
    ensures r.None? <==> forall u :: u in users ==> KeyOf(u, key) != value
  {
    if users == [] then None
    else if KeyOf(users[0], key) == value then Some(users[0])
    else FindUnique(users[1..], key, value)
  }

  /** With unique keys, a lookup by either key finds exactly the row that
      holds it. */
  lemma {:induction false} LookupFindsRow(users: seq<User>, u: User)
    requires Unique(users) && u in users
    ensures FindUnique(users, ByEmail, u.email) == Some(u)
    ensures FindUnique(users, ById, u.id) == Some(u)
  {
    if users[0] != u {
      assert Unique(users[1..]) by {
        forall i, j | 0 <= i < j < |users[1..]|
          ensures users[1..][i].id != users[1..][j].id && users[1..][i].email != users[1..][j].email
        {
          assert users[1..][i] == users[i + 1] && users[1..][j] == users[j + 1];
        }
      }
      var k :| 0 <= k < |users| && users[k] == u;
      assert users[0].email != u.email && users[0].id != u.id;
      assert u in users[1..] by { assert users[1..][k - 1] == u; }
      LookupFindsRow(users[1..], u);
    }
  }

  /** Appending a row whose keys are both new keeps the keys unique. */
  lemma AppendKeepsUnique(users: seq<User>, u: User)
    requires Unique(users)
    requires FindUnique(users, ByEmail, u.email).None? && FindUnique(users, ById, u.id).None?
    ensures Unique(users + [u])
  {
    var t := users + [u];
    forall i, j | 0 <= i < j < |t| ensures t[i].id != t[j].id && t[i].email != t[j].email {
      if j == |users| { assert t[i] in users; }
    }
  }
}

/** The user store: the `user` table and registration into it. The table has
    no UNIQUE constraint, so the two lookups `register` makes before its
    insert are all that keeps usernames and emails unique. */
module Accounts {
  import opened Js

  /** One row of the `user` table; `password` holds the hash, never the plaintext. */
  datatype UserRow = UserRow(id: int, username: string, password: string,
                             forename: string, surname: string, email: string)

  /** The five arguments of one `register` call. */
  datatype Registration = Registration(username: string, password: string,
                                       forename: string, surname: string, email: string)

  /** Whether `SELECT COUNT(...) FROM user WHERE username=...` counts any row. */
  predicate UsernameTaken(rows: seq<UserRow>, username: string)
    ensures UsernameTaken(rows, username) <==> CountWhere(rows, (r: UserRow) => r.username == username) != 0
  {
    exists i | 0 <= i < |rows| :: rows[i].username == username
  }

  /** Whether `SELECT COUNT(...) FROM user WHERE email=...` counts any row. */
  predicate EmailTaken(rows: seq<UserRow>, email: string)
    ensures EmailTaken(rows, email) <==> CountWhere(rows, (r: UserRow) => r.email == email) != 0
  {
    exists i | 0 <= i < |rows| :: rows[i].email == email
  }

  /** No two rows share a username, and no two share an email. */
  predicate Unique(rows: seq<UserRow>) {
    forall i, j | 0 <= i < j < |rows| ::
      rows[i].username != rows[j].username && rows[i].email != rows[j].email
  }

  /** Every id is below `nextId` and ids increase along the table (AUTOINCREMENT). */
  predicate IdsBelow(rows: seq<UserRow>, nextId: int) {
    1 <= nextId &&
    (forall i | 0 <= i < |rows| :: 1 <= rows[i].id < nextId) &&
    (forall i, j | 0 <= i < j < |rows| :: rows[i].id < rows[j].id)
  }

  /** The guards `register` runs, in order, before it inserts. */
  function RegisterChecks(rows: seq<UserRow>, req: Registration): seq<Check> {
    [ Check(|req.username| != 0, "missing username"),
      Check(|req.password| != 0, "missing password"),
      Check(|req.forename| != 0, "missing forename"),
      Check(|req.surname| != 0, "missing surname"),
      Check(|req.email| != 0, "missing email"),
      Check(!UsernameTaken(rows, req.username), "username \"" + req.username + "\" already in use"),
      Check(!EmailTaken(rows, req.email), "email \"" + req.email + "\" already in use") ]
  }

  /** The message `register` rejects with, or None when it inserts. */
  function RegisterError(rows: seq<UserRow>, req: Registration): (e: Option<string>)
    ensures e.None? <==>
      req.username != "" && req.password != "" && req.forename != "" &&
      req.surname != "" && req.email != "" &&
      !UsernameTaken(rows, req.username) && !EmailTaken(rows, req.email)
  {
    var checks := RegisterChecks(rows, req);
    assert |checks| == 7;
    assert (forall i | 0 <= i < |checks| :: checks[i].passes) <==>
      checks[0].passes && checks[1].passes && checks[2].passes && checks[3].passes &&
      checks[4].passes && checks[5].passes && checks[6].passes;
    FirstFailure(checks)
  }

  /** The row a successful registration inserts. */
  function NewRow(id: int, hashed: string, req: Registration): UserRow {
    UserRow(id, req.username, hashed, req.forename, req.surname, req.email)
  }

  /** The first empty field is reported, in the order username, password,
      forename, surname, email, and whatever the table holds. */
  lemma RegisterMissingField(rows: seq<UserRow>, req: Registration)
    ensures req.username == "" ==>
      RegisterError(rows, req) == Some("missing username")
    ensures req.username != "" && req.password == "" ==>
      RegisterError(rows, req) == Some("missing password")
    ensures req.username != "" && req.password != "" && req.forename == "" ==>
      RegisterError(rows, req) == Some("missing forename")
    ensures req.username != "" && req.password != "" && req.forename != "" && req.surname == "" ==>
      RegisterError(rows, req) == Some("missing surname")
    ensures req.username != "" && req.password != "" && req.forename != "" && req.surname != "" && req.email == "" ==>
      RegisterError(rows, req) == Some("missing email")
  {
    var checks := RegisterChecks(rows, req);
    if req.username == "" {
      FirstFailureAt(checks, 0);
    } else if req.password == "" {
      FirstFailureAt(checks, 1);
    } else if req.forename == "" {
      FirstFailureAt(checks, 2);
    } else if req.surname == "" {
      FirstFailureAt(checks, 3);
    } else if req.email == "" {
      FirstFailureAt(checks, 4);
    }
  }

  /** With every field present, a stored username is rejected, whether or not
      the email is also taken; a stored email only once the username is free. */
  lemma RegisterConflict(rows: seq<UserRow>, req: Registration)
    requires req.username != "" && req.password != "" && req.forename != ""
    requires req.surname != "" && req.email != ""
    ensures UsernameTaken(rows, req.username) ==>
      RegisterError(rows, req) == Some("username \"" + req.username + "\" already in use")
    ensures !UsernameTaken(rows, req.username) && EmailTaken(rows, req.email) ==>
      RegisterError(rows, req) == Some("email \"" + req.email + "\" already in use")
  {
    var checks := RegisterChecks(rows, req);
    if UsernameTaken(rows, req.username) {
      FirstFailureAt(checks, 5);
    } else if EmailTaken(rows, req.email) {
      FirstFailureAt(checks, 6);
    }
  }

  /** Registering the same details a second time fails on the username. */
  lemma RegisterTwice(rows: seq<UserRow>, id: int, hashed: string, req: Registration)
    requires RegisterError(rows, req).None?
    ensures RegisterError(rows + [NewRow(id, hashed, req)], req) ==
      Some("username \"" + req.username + "\" already in use")
  {
    var rows' := rows + [NewRow(id, hashed, req)];
    assert rows'[|rows|].username == req.username;
    RegisterConflict(rows', req);
  }

  /** A registration that passes its guards keeps usernames and emails unique. */
  lemma RegisterKeepsUnique(rows: seq<UserRow>, id: int, hashed: string, req: Registration)
    requires Unique(rows) && RegisterError(rows, req).None?
    ensures Unique(rows + [NewRow(id, hashed, req)])
  {
  }

  /** The table and id counter after a sequence of `register` calls, each
      hashing its password with `hash`; rejected calls change nothing. */
  function RegisterAll(rows: seq<UserRow>, nextId: int, hash: string -> string,
                       reqs: seq<Registration>): (seq<UserRow>, int)
    decreases |reqs|
  {
    if reqs == [] then (rows, nextId)
    else if RegisterError(rows, reqs[0]).None? then
      RegisterAll(rows + [NewRow(nextId, hash(reqs[0].password), reqs[0])], nextId + 1, hash, reqs[1..])
    else
      RegisterAll(rows, nextId, hash, reqs[1..])
  }

  /** Across any sequence of `register` calls, usernames stay pairwise
      distinct and emails stay pairwise distinct. */
  lemma {:induction false} RegisterAllKeepsUnique(rows: seq<UserRow>, nextId: int,
                                                  hash: string -> string, reqs: seq<Registration>)
    requires Unique(rows)
    ensures Unique(RegisterAll(rows, nextId, hash, reqs).0)
    decreases |reqs|
  {
    if reqs != [] {
      if RegisterError(rows, reqs[0]).None? {
        RegisterKeepsUnique(rows, nextId, hash(reqs[0].password), reqs[0]);
        RegisterAllKeepsUnique(rows + [NewRow(nextId, hash(reqs[0].password), reqs[0])],
                               nextId + 1, hash, reqs[1..]);
      } else {
        RegisterAllKeepsUnique(rows, nextId, hash, reqs[1..]);
      }
    }
  }

  /** The username of the first row with the given id, as
      `SELECT username FROM user WHERE user_id=...` returns it. */
  function UsernameOf(rows: seq<UserRow>, userId: int): (r: Option<string>)
    ensures r.None? <==> forall i | 0 <= i < |rows| :: rows[i].id != userId
    ensures r.Some? ==> exists i | 0 <= i < |rows| :: rows[i].id == userId && rows[i].username == r.value
  {
    match IndexWhere(rows, (u: UserRow) => u.id == userId)
    case None => None
    case Some(k) => Some(rows[k].username)
  }

  /** The `user` table behind one database handle. */
  class User {
    var rows: seq<UserRow>
    var nextId: int
    /** bcrypt's hash, taken as an uninterpreted function of the password. */
    const hash: string -> string

    ghost predicate Valid()
      reads this
    {
      IdsBelow(rows, nextId) && Unique(rows)
    }

    constructor (hash: string -> string)
      ensures Valid() && rows == [] && nextId == 1 && this.hash == hash
    {
      rows := [];
      nextId := 1;
      this.hash := hash;
    }

    /** Registers a user: five emptiness guards, the username and email
        lookups, then one insert storing the password's hash. */
    method Register(user: string, pass: string, forename: string, surname: string, email: string)
      returns (r: Result<bool>)
      requires Valid()
      modifies this
      ensures Valid()
      ensures var e := RegisterError(old(rows), Registration(user, pass, forename, surname, email));
        (e.Some? ==> r == Err(e.value) && rows == old(rows) && nextId == old(nextId)) &&
        (e.None? ==> r == Ok(true) && nextId == old(nextId) + 1 &&
                     rows == old(rows) + [UserRow(old(nextId), user, hash(pass), forename, surname, email)])
    {
      ghost var req := Registration(user, pass, forename, surname, email);
      RegisterMissingField(rows, req);
      if |user| == 0 { return Err("missing username"); }
      if |pass| == 0 { return Err("missing password"); }
      if |forename| == 0 { return Err("missing forename"); }
      if |surname| == 0 { return Err("missing surname"); }
      if |email| == 0 { return Err("missing email"); }
      RegisterConflict(rows, req);
      if UsernameTaken(rows, user) { return Err("username \"" + user + "\" already in use"); }
      if EmailTaken(rows, email) { return Err("email \"" + email + "\" already in use"); }
      var hashed := hash(pass);
      RegisterKeepsUnique(rows, nextId, hashed, req);
      rows := rows + [UserRow(nextId, user, hashed, forename, surname, email)];
      nextId := nextId + 1;
      return Ok(true);
    }
  }
}

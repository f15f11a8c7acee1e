/**
 * The users and logs tables as the backend uses them: a first-match lookup by
 * face encoding, an insert into `users` (whose `username` column is UNIQUE)
 * and an insert into `logs` (whose `user_id` references `users`).
 * Whether the database can be reached is a parameter of each operation.
 */
module Store {
  import opened Wrappers
  import opened Vision

  /** A row of `users`: auto-increment id, unique username, stored encoding and the optional JPEG of the enrolment frame. */
  datatype User = User(id: int, username: string, encoding: Encoding, photo: Option<Frame>)

  /** A row of `logs`: the user's id and the action, 'in' or 'out'. */
  type LogEntry = (int, string)

  /** The stored encoding of `u` matches the query within the default tolerance. */
  predicate Recognizes(lib: FaceLib, u: User, query: Encoding)
  {
    lib.compare(u.encoding, query, Tolerance)
  }

  predicate Taken(users: seq<User>, username: string)
  {
    exists i :: 0 <= i < |users| && users[i].username == username
  }

  predicate HasId(users: seq<User>, id: int)
  {
    exists i :: 0 <= i < |users| && users[i].id == id
  }

  /** The first user, in query order, whose stored encoding matches; the scan's specification. */
  function FirstRecognized(users: seq<User>, lib: FaceLib, query: Encoding): (found: Option<User>)
    ensures found.Some? ==>
      exists k :: 0 <= k < |users| && users[k] == found.value && Recognizes(lib, users[k], query) &&
        forall j :: 0 <= j < k ==> !Recognizes(lib, users[j], query)
    ensures found.None? ==> forall j :: 0 <= j < |users| ==> !Recognizes(lib, users[j], query)
    decreases |users|
  {
    if users == [] then None
    else if Recognizes(lib, users[0], query) then Some(users[0])
    else
      var rest := FirstRecognized(users[1..], lib, query);
      assert forall j :: 1 <= j < |users| ==> users[j] == users[1..][j - 1];
      rest
  }

  class UserStore {
    var users: seq<User>
    var logs: seq<LogEntry>
    /** The next AUTO_INCREMENT value of `users.id`. */
    var nextId: int

    /** Ids are positive, below the counter and increasing; usernames are unique; every log row names an existing user. */
    ghost predicate Valid()
      reads this
    {
      1 <= nextId &&
      (forall i :: 0 <= i < |users| ==> 1 <= users[i].id < nextId) &&
      (forall i, j :: 0 <= i < j < |users| ==> users[i].id < users[j].id) &&
      (forall i, j :: 0 <= i < j < |users| ==> users[i].username != users[j].username) &&
      (forall k :: 0 <= k < |logs| ==> HasId(users, logs[k].0))
    }

    /** Freshly created tables. */
    constructor ()
      ensures Valid()
      ensures users == [] && logs == [] && nextId == 1
    {
      users, logs, nextId := [], [], 1;
    }

    /** `get_user_by_face_encoding`: the first matching user, or None when none matches or the database is unreachable. */
    method GetUserByFaceEncoding(faceEncoding: Encoding, lib: FaceLib, reachable: bool) returns (found: Option<User>)
      ensures found == if reachable then FirstRecognized(users, lib, faceEncoding) else None
    {
      if !reachable {
        return None;
      }
      var rows := users;
      var i := 0;
      while i < |rows|
        invariant 0 <= i <= |rows|
        invariant FirstRecognized(rows, lib, faceEncoding) == FirstRecognized(rows[i..], lib, faceEncoding)
      {
        if Recognizes(lib, rows[i], faceEncoding) {
          return Some(rows[i]);
        }
        assert rows[i..][1..] == rows[i + 1..];
        i := i + 1;
      }
      return None;
    }

    /**
     * `save_user`: appends one row with the next id and returns true; a taken
     * username (the UNIQUE column) or an unreachable database returns false and
     * leaves the table as it was.
     */
    method SaveUser(username: string, faceEncoding: Encoding, img: Option<Frame>, reachable: bool) returns (ok: bool)
      requires Valid()
      modifies this`users, this`nextId
      ensures Valid()
      ensures ok <==> reachable && !Taken(old(users), username)
      ensures users == if ok then old(users) + [User(old(nextId), username, faceEncoding, img)] else old(users)
      ensures nextId == if ok then old(nextId) + 1 else old(nextId)
    {
      if !reachable || Taken(users, username) {
        return false;
      }
      users := users + [User(nextId, username, faceEncoding, img)];
      nextId := nextId + 1;
      forall k | 0 <= k < |logs| ensures HasId(users, logs[k].0) {
        var i :| 0 <= i < |old(users)| && old(users)[i].id == logs[k].0;
        assert users[i] == old(users)[i];
      }
      return true;
    }

    /**
     * `log_user_action`: appends (user id, action) and returns true; an unreachable
     * database or an id with no user (the foreign key) returns false and appends nothing.
     */
    method LogUserAction(userId: int, action: string, reachable: bool) returns (ok: bool)
      requires Valid()
      modifies this`logs
      ensures Valid()
      ensures ok <==> reachable && HasId(users, userId)
      ensures logs == if ok then old(logs) + [(userId, action)] else old(logs)
    {
      if !reachable || !HasId(users, userId) {
        return false;
      }
      logs := logs + [(userId, action)];
      return true;
    }
  }

  /** Two users never share a username, so a second enrolment under a name always fails. */
  lemma UsernamesIdentifyUsers(s: UserStore, i: int, j: int)
    requires s.Valid()
    requires 0 <= i < |s.users| && 0 <= j < |s.users|
    requires s.users[i].username == s.users[j].username
    ensures i == j && s.users[i].id == s.users[j].id
  {
  }
}

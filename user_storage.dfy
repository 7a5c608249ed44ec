/**
 * UserStorage: queries over the stored users. The CouchDB documents and the
 * "users/username" view are a sequence of users in storage order; the view
 * for a key is the users with that username, in that order.
 */
module UserStorage {
  import opened JavaText

  datatype User = User(username: string, email: Option<string>)

  const INDEX_OUT_OF_BOUNDS: string := "IndexOutOfBoundsException"

  /** getAllUsers: every stored user, in storage order. */
  function GetAllUsers(users: seq<User>): (r: seq<User>)
    ensures |r| == |users| && forall i | 0 <= i < |users| :: r[i] == users[i]
  {
    users
  }

  /** The view "users/username" queried with a key: the users with that username, in storage order. */
  function WithUsername(users: seq<User>, username: string): (r: seq<User>)
    ensures |r| <= |users|
    ensures forall i | 0 <= i < |r| :: r[i] in users && r[i].username == username
    ensures r == [] <==> forall i | 0 <= i < |users| :: users[i].username != username
  {
    if users == [] then []
    else
      var rest := WithUsername(users[1..], username);
      assert forall i | 1 <= i < |users| :: users[i] == users[1..][i - 1];
      if users[0].username == username then [users[0]] + rest else rest
  }

  /** The first stored user with the username comes first in the view. */
  lemma {:induction false} ViewStartsWithFirstMatch(users: seq<User>, username: string, k: int)
    requires 0 <= k < |users| && users[k].username == username
    requires forall j | 0 <= j < k :: users[j].username != username
    ensures WithUsername(users, username)[0] == users[k]
  {
    if k > 0 {
      ViewStartsWithFirstMatch(users[1..], username, k - 1);
    }
  }

  /**
   * getUser: the first user of the view for the username; `get(0)` on an
   * empty view throws. Too many matches are only logged.
   */
  function GetUser(users: seq<User>, username: string): (r: Result<User>)
    ensures r.Err? <==> forall i | 0 <= i < |users| :: users[i].username != username
    ensures r.Err? ==> r.message == INDEX_OUT_OF_BOUNDS
    ensures r.Ok? ==> r.value in users && r.value.username == username
  {
    var matching := WithUsername(users, username);
    if |matching| == 0 then Err(INDEX_OUT_OF_BOUNDS) else Ok(matching[0])
  }

  /** getUser picks the first stored user with the username. */
  lemma GetUserIsFirstMatch(users: seq<User>, username: string, k: int)
    requires 0 <= k < |users| && users[k].username == username
    requires forall j | 0 <= j < k :: users[j].username != username
    ensures GetUser(users, username) == Ok(users[k])
  {
    ViewStartsWithFirstMatch(users, username, k);
  }

  /** checkUser: the view for the username has exactly one user. */
  function CheckUser(users: seq<User>, username: string): (r: bool)
    ensures r ==> exists i | 0 <= i < |users| :: users[i].username == username
  {
    |WithUsername(users, username)| == 1
  }

  /** Exactly one stored user has the username. */
  predicate ExactlyOne(users: seq<User>, username: string) {
    exists i | 0 <= i < |users| :: users[i].username == username &&
      forall j | 0 <= j < |users| && j != i :: users[j].username != username
  }

  /** With a first user of that name, exactly one means none among the rest. */
  lemma ExactlyOneWithHead(users: seq<User>, username: string)
    requires users != [] && users[0].username == username
    ensures ExactlyOne(users, username) <==> forall j | 0 <= j < |users[1..]| :: users[1..][j].username != username
  {
    var tail := users[1..];
    if ExactlyOne(users, username) {
      var i :| 0 <= i < |users| && users[i].username == username &&
        forall j | 0 <= j < |users| && j != i :: users[j].username != username;
      assert i == 0;
      forall j | 0 <= j < |tail| ensures tail[j].username != username {
        assert tail[j] == users[j + 1];
      }
    }
    if forall j | 0 <= j < |tail| :: tail[j].username != username {
      forall j | 0 < j < |users| ensures users[j].username != username {
        assert users[j] == tail[j - 1];
      }
    }
  }

  /** With a first user of another name, exactly one among all means exactly one among the rest. */
  lemma ExactlyOneWithoutHead(users: seq<User>, username: string)
    requires users != [] && users[0].username != username
    ensures ExactlyOne(users, username) <==> ExactlyOne(users[1..], username)
  {
    var tail := users[1..];
    if ExactlyOne(users, username) {
      var i :| 0 <= i < |users| && users[i].username == username &&
        forall j | 0 <= j < |users| && j != i :: users[j].username != username;
      assert tail[i - 1] == users[i];
      forall j | 0 <= j < |tail| && j != i - 1 ensures tail[j].username != username {
        assert tail[j] == users[j + 1];
      }
    }
    if ExactlyOne(tail, username) {
      var i :| 0 <= i < |tail| && tail[i].username == username &&
        forall j | 0 <= j < |tail| && j != i :: tail[j].username != username;
      assert users[i + 1] == tail[i];
      forall j | 0 <= j < |users| && j != i + 1 ensures users[j].username != username {
        if j > 0 {
          assert users[j] == tail[j - 1];
        }
      }
    }
  }

  /** checkUser is true exactly when one stored user has the username. */
  lemma {:induction false} CheckUserIffExactlyOne(users: seq<User>, username: string)
    ensures CheckUser(users, username) <==> ExactlyOne(users, username)
  {
    if users != [] {
      var tail := users[1..];
      if users[0].username == username {
        ExactlyOneWithHead(users, username);
        assert |WithUsername(users, username)| == 1 + |WithUsername(tail, username)|;
      } else {
        ExactlyOneWithoutHead(users, username);
        CheckUserIffExactlyOne(tail, username);
      }
    }
  }

  /** emailExists: some stored user has an email, and it equals the argument. */
  function EmailExists(users: seq<User>, email: string): (r: bool)
    ensures r <==> exists i | 0 <= i < |users| :: users[i].email == Some(email)
  {
    if users == [] then false
    else
      var rest := EmailExists(users[1..], email);
      assert forall i | 1 <= i < |users| :: users[i] == users[1..][i - 1];
      (users[0].email.Some? && users[0].email.value == email) || rest
  }
}

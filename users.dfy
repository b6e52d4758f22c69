/**
 * The duplicate-username check of UserViewHandler.post and
 * AddUserHandler.post: a loop over the contest's users that stops at the
 * first clash.
 */
module Users {
  import opened Wrappers

  /**
   * Whether `requested` clashes with a username in the contest. When an
   * existing user is renamed, `current` is its present username, and users
   * with that username are skipped (UserViewHandler); a new user has none
   * (AddUserHandler). Keeping one's own name is never a clash.
   */
  method DuplicateUsername(usernames: seq<string>, requested: string, current: Option<string>)
    returns (duplicate: bool)
    ensures duplicate <==> requested in usernames && current != Some(requested)
  {
    var i := 0;
    while i < |usernames|
      invariant 0 <= i <= |usernames|
      invariant requested !in usernames[..i] || current == Some(requested)
    {
      var u := usernames[i];
      if (current.None? || u != current.value) && u == requested {
        return true;
      }
      i := i + 1;
    }
    assert usernames[..i] == usernames;
    return false;
  }
}

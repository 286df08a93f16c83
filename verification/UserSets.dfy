/** Walking over sets of user ids. */
module UserSets {

  /** A set is empty or has a member. */
  lemma HasMember(users: set<int>)
    ensures users == {} || exists u :: u in users
  {
    if !(exists u :: u in users) {
      assert users == {};
    }
  }

  predicate IsLeastUser(u: int, users: set<int>) { u in users && forall w :: w in users ==> u <= w }

  lemma {:induction false} LeastUserExists(users: set<int>)
    ensures users == {} || exists u :: IsLeastUser(u, users)
    decreases |users|
  {
    HasMember(users);
    if users != {} {
      var u :| u in users;
      var rest := users - {u};
      LeastUserExists(rest);
      if rest == {} {
        assert IsLeastUser(u, users);
      } else {
        var v :| IsLeastUser(v, rest);
        forall w | w in users && w != u
          ensures v <= w
        {
          assert w in rest;
        }
        assert IsLeastUser(if u < v then u else v, users);
      }
    }
  }

  /** Whichever user an unordered walk comes to next. */
  method SomeUser(users: set<int>) returns (u: int)
    requires users != {}
    ensures u in users
  {
    HasMember(users);
    u :| u in users;
  }

  /** The user an ascending walk, as std::set gives it, comes to next. */
  method LeastUser(users: set<int>) returns (u: int)
    requires users != {}
    ensures IsLeastUser(u, users)
  {
    LeastUserExists(users);
    u :| IsLeastUser(u, users);
  }
}

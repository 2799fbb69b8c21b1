/** Two concrete listings worked out against the model. */
module Scenarios {
  import opened Wrappers
  import opened Records
  import opened Listing

  /**
   * Users 1 and 2; one job led by user 1. The listing has that single job
   * with leader "Smith Ann" and a duration of 10 days.
   */
  lemma ListingOfOneJob()
    ensures
      var users := [User(1, "Ann", "Smith"), User(2, "Bob", "Jones")];
      var works := [Job(7, "deploy", 1, 15, 100, 110, "2, 3", false)];
      Entries(works, Leaders(works, users)) == Ok([Entry(7, "deploy", "Smith Ann", 10, "2, 3", false)])
  {
    var users := [User(1, "Ann", "Smith"), User(2, "Bob", "Jones")];
    var works := [Job(7, "deploy", 1, 15, 100, 110, "2, 3", false)];
    LastUserWins(works, users, 0, 0);
    var leaders := Leaders(works, users);
    assert leaders[1] == "Smith Ann";
    var r := Entries(works, leaders);
    assert r.Ok? && |r.value| == 1;
    assert r.value[0] == EntryOf(works[0], "Smith Ann");
    assert r.value == [Entry(7, "deploy", "Smith Ann", 10, "2, 3", false)];
  }

  /**
   * A second user with id 1 later in the users table replaces the first one's
   * name, and a second job led by unknown user 5 makes the listing fail with
   * that id.
   */
  lemma ListingWithUnknownLeader()
    ensures
      var users := [User(1, "Ann", "Smith"), User(1, "Eve", "Brown")];
      var works := [Job(7, "deploy", 1, 15, 100, 110, "", true), Job(8, "test", 5, 3, 120, 119, "", false)];
      Leaders(works, users) == map[1 := "Brown Eve"] &&
      Entries(works, Leaders(works, users)) == Err(MissingTeamLead(5))
  {
    var users := [User(1, "Ann", "Smith"), User(1, "Eve", "Brown")];
    var works := [Job(7, "deploy", 1, 15, 100, 110, "", true), Job(8, "test", 5, 3, 120, 119, "", false)];
    LastUserWins(works, users, 0, 1);
    var leaders := Leaders(works, users);
    assert leaders[1] == "Brown Eve";
    assert !HasUser(users, 5);
    assert leaders.Keys == {1};
    assert Entries(works[1..], leaders) == Err(MissingTeamLead(5));
  }
}

/**
 * The job listing shown on the index page: every job joined with the
 * display name of its team leader, in two steps.
 *   1. `BuildTeamLeaders` scans every (job, user) pair and records, for
 *      each team-leader id that some user carries, that user's display
 *      name; a later matching user overwrites an earlier one.
 *   2. `Entries` maps every job to a display record, looking its leader up
 *      in that map; a leader id absent from the map is a `KeyError`.
 * `Index` runs both steps.
 */
module Listing {
  import opened Wrappers
  import opened Records

  /** The lookup error of step 2: the key that was missing. */
  datatype ListingError = MissingTeamLead(teamLeader: int)

  /** Some user carries id `k`. */
  ghost predicate HasUser(users: seq<User>, k: int)
  {
    exists p :: 0 <= p < |users| && users[p].id == k
  }

  /** Index of the last user whose id is `k`, if there is one. */
  function LastIndexOf(users: seq<User>, k: int): (r: Option<nat>)
    ensures r.Some? ==>
      r.value < |users| && users[r.value].id == k &&
      forall q :: r.value < q < |users| ==> users[q].id != k
    ensures r.None? ==> forall q :: 0 <= q < |users| ==> users[q].id != k
  {
    if |users| == 0 then None
    else if users[|users| - 1].id == k then Some(|users| - 1)
    else LastIndexOf(users[..|users| - 1], k)
  }

  /** The team-leader ids of all jobs. */
  function TeamLeaderIds(works: seq<Job>): (ids: set<int>)
  {
    set w | w in works :: w.teamLeader
  }

  /**
   * The map the nested loops of step 1 produce: a key for every team-leader
   * id that some user carries, mapped to the display name of the last such
   * user.
   */
  function Leaders(works: seq<Job>, users: seq<User>): (m: map<int, string>)
    ensures forall k :: k in m <==> (exists i :: 0 <= i < |works| && works[i].teamLeader == k) && HasUser(users, k)
  {
    map k | k in TeamLeaderIds(works) && LastIndexOf(users, k).Some? ::
      DisplayName(users[LastIndexOf(users, k).value])
  }

  /**
   * When the user at index `p` is the last one with its id and some job is
   * led by that id, the leader map holds that user's display name.
   */
  lemma LastUserWins(works: seq<Job>, users: seq<User>, i: nat, p: nat)
    requires i < |works| && p < |users|
    requires works[i].teamLeader == users[p].id
    requires forall q :: p < q < |users| ==> users[q].id != users[p].id
    ensures users[p].id in Leaders(works, users)
    ensures Leaders(works, users)[users[p].id] == DisplayName(users[p])
  {
  }

  /** `base` after the inner loop has run over `us` for team leader `k`. */
  function Overlay(base: map<int, string>, k: int, us: seq<User>): (m: map<int, string>)
  {
    match LastIndexOf(us, k)
    case None => base
    case Some(p) => base[k := DisplayName(us[p])]
  }

  /** One more job handled by the outer loop adds its leader, if some user has that id. */
  lemma LeadersStep(works: seq<Job>, users: seq<User>, i: nat)
    requires i < |works|
    ensures Overlay(Leaders(works[..i], users), works[i].teamLeader, users) == Leaders(works[..i + 1], users)
  {
    assert works[..i + 1] == works[..i] + [works[i]];
  }

  /** Inner-loop step: the user at index `j` is considered for team leader `k`. */
  lemma OverlayStep(base: map<int, string>, k: int, users: seq<User>, j: nat)
    requires j < |users|
    ensures Overlay(base, k, users[..j + 1]) ==
      if users[j].id == k then Overlay(base, k, users[..j])[k := DisplayName(users[j])]
      else Overlay(base, k, users[..j])
  {
  }

  /**
   * Step 1: nested loops over jobs and users filling the team-leader map in
   * place.
   */
  method BuildTeamLeaders(works: seq<Job>, users: seq<User>) returns (leaders: map<int, string>)
    ensures leaders == Leaders(works, users)
  {
    leaders := map[];
    var i := 0;
    while i < |works|
      invariant 0 <= i <= |works|
      invariant leaders == Leaders(works[..i], users)
    {
      var k := works[i].teamLeader;
      ghost var base := leaders;
      var j := 0;
      while j < |users|
        invariant 0 <= j <= |users|
        invariant leaders == Overlay(base, k, users[..j])
      {
        OverlayStep(base, k, users, j);
        if k == users[j].id {
          leaders := leaders[k := DisplayName(users[j])];
        }
        j := j + 1;
      }
      assert users[..|users|] == users;
      LeadersStep(works, users, i);
      i := i + 1;
    }
    assert works[..|works|] == works;
  }

  /** The display record of a job whose leader's display name is `leader`. */
  function EntryOf(w: Job, leader: string): (e: Entry)
  {
    Entry(w.id, w.title, leader, w.endDate - w.startDate, w.collaborators, w.isFinished)
  }

  /**
   * Step 2: one display record per job, in order; the first job whose team
   * leader is not a key of `leaders` stops the whole listing with that key.
   */
  function Entries(works: seq<Job>, leaders: map<int, string>): (r: Result<seq<Entry>, ListingError>)
    ensures r.Ok? <==> forall i :: 0 <= i < |works| ==> works[i].teamLeader in leaders
    ensures r.Ok? ==> |r.value| == |works|
    ensures r.Ok? ==> forall i :: 0 <= i < |works| ==>
      (works[i].teamLeader in leaders && r.value[i] == EntryOf(works[i], leaders[works[i].teamLeader]))
    ensures r.Err? ==> exists i :: (0 <= i < |works| && works[i].teamLeader !in leaders &&
      r.error == MissingTeamLead(works[i].teamLeader) &&
      forall j :: 0 <= j < i ==> works[j].teamLeader in leaders)
  {
    if |works| == 0 then Ok([])
    else if works[0].teamLeader !in leaders then Err(MissingTeamLead(works[0].teamLeader))
    else
      match Entries(works[1..], leaders)
      case Err(e) => Err(e)
      case Ok(rest) => Ok([EntryOf(works[0], leaders[works[0].teamLeader])] + rest)
  }

  /**
   * The leader of entry `e` for job `w` is the surname, a space and the name
   * of the last user whose id is `w`'s team leader.
   */
  ghost predicate LedBy(e: Entry, w: Job, users: seq<User>)
  {
    exists p :: 0 <= p < |users| && users[p].id == w.teamLeader &&
      e.leader == users[p].surname + " " + users[p].name &&
      forall q :: p < q < |users| ==> users[q].id != w.teamLeader
  }

  /**
   * The index page's join. On success there is one record per job, in job
   * order, with the job's fields copied, the duration `end - start` and the
   * display name of the last user carrying the job's team-leader id; it
   * fails, naming the id, exactly when some job's leader matches no user,
   * and then at the first such job.
   */
  method Index(works: seq<Job>, users: seq<User>) returns (r: Result<seq<Entry>, ListingError>)
    ensures r.Ok? <==> forall i :: 0 <= i < |works| ==> HasUser(users, works[i].teamLeader)
    ensures r.Ok? ==> |r.value| == |works|
    ensures r.Ok? ==> forall i :: 0 <= i < |works| ==> (
      r.value[i].id == works[i].id &&
      r.value[i].job == works[i].title &&
      r.value[i].duration == works[i].endDate - works[i].startDate &&
      r.value[i].collaborators == works[i].collaborators &&
      r.value[i].isFinished == works[i].isFinished)
    ensures r.Ok? ==> forall i :: 0 <= i < |works| ==> LedBy(r.value[i], works[i], users)
    ensures r.Err? ==> exists i :: (0 <= i < |works| && !HasUser(users, works[i].teamLeader) &&
      r.error == MissingTeamLead(works[i].teamLeader) &&
      forall j :: 0 <= j < i ==> HasUser(users, works[j].teamLeader))
  {
    var leaders := BuildTeamLeaders(works, users);
    r := Entries(works, leaders);
    forall i | 0 <= i < |works|
      ensures works[i].teamLeader in leaders <==> HasUser(users, works[i].teamLeader)
    {
    }
    if r.Ok? {
      forall i | 0 <= i < |works|
        ensures LedBy(r.value[i], works[i], users)
      {
        var p := LastIndexOf(users, works[i].teamLeader).value;
        LastUserWins(works, users, i, p);
      }
    }
  }
}

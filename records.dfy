/**
 * The records that the job listing reads and produces.
 *
 * Dates are whole day numbers, so the difference of two dates is an
 * integer count of days (a `timedelta` in the original program).
 */
module Records {

  /** A row of the jobs table, with the columns the application writes and reads. */
  datatype Job = Job(
    id: int,
    title: string,        // the `job` column
    teamLeader: int,      // a user id, not checked against the users table
    workSize: int,        // hours
    startDate: int,
    endDate: int,
    collaborators: string,
    isFinished: bool)

  /** The columns of a user row that the listing uses. */
  datatype User = User(id: int, name: string, surname: string)

  /** One display record of the listing page. */
  datatype Entry = Entry(
    id: int,
    job: string,
    leader: string,
    duration: int,
    collaborators: string,
    isFinished: bool)

  /** The leader's display name: surname, one space, name. */
  function DisplayName(u: User): (name: string)
  {
    u.surname + " " + u.name
  }
}

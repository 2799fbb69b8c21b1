# Job listing join of the work-tracking application

This project models the in-memory join behind the application's index page
(`index()` in `main.py`). The page loads every job and every user. It then
builds a `team_leaders` dictionary from team-leader id to display name.
Finally it turns each job into a display record that holds the job's id,
title, collaborators and finished flag, the duration `end_date - start_date`,
and its leader's name.

The project has three modules:

- `Records` (`records.dfy`): the job row, the user row (id, name, surname),
  the display record, and the leader display name `surname + " " + name`.
  Dates are whole day numbers. A duration is their integer difference, so it
  may be negative, because nothing checks that a job ends after it starts.
- `Listing` (`listing.dfy`): step 1 is `BuildTeamLeaders`. It is a method
  whose nested `while` loops over jobs and users update a `map` in place. It
  is proved equal to the declarative `Leaders`: one key for every team-leader
  id that some user carries, mapped to the name of the LAST user with that id.
  Step 2 is `Entries`, the list comprehension. It is a recursive function
  that returns `Err(MissingTeamLead(k))` where Python raises `KeyError(k)`.
  `Index` runs both steps. Its contract describes the whole result in terms
  of the input sequences. Three helpers carry no contract of their own.
  `EntryOf` builds one display record from a job and a leader name.
  `Overlay` is the map after the inner loop over the users has run for one
  team-leader id. `Records.DisplayName` forms the leader's name.
- `Scenarios` (`scenarios.dfy`): two concrete listings. One succeeds. In the
  other, a duplicate user id overwrites the earlier name and an unknown
  leader makes the listing fail.

Jobs and users are immutable sequence values, so the join cannot modify its
inputs.

## Model

| member | source | states |
|---|---|---|
| `Listing.LastIndexOf` | main.py:133-135 | the index found holds a user with the wanted id and no later user has it; `None` exactly when no user has that id |
| `Listing.Leaders` | main.py:131-135 | a key is in the team-leader map iff it is some job's team leader AND some user's id; no other keys |
| `Listing.LastUserWins` | main.py:132-135 | when several users share a job's team-leader id, the map holds the surname, a space and the name of the last of them |
| `Listing.LeadersStep` | main.py:132-135 | one pass of the outer loop over a job adds that job's leader (if a user has that id) to the map built from the earlier jobs |
| `Listing.BuildTeamLeaders` | main.py:131-135 | the nested loops that overwrite the dictionary leave exactly the map `Leaders` describes |
| `Listing.Entries` | main.py:136-140 | success iff every job's leader is a key; then one record per job, in order, with fields copied, duration `end - start` and the looked-up name; otherwise the error names the leader of the first job whose lookup fails |
| `Listing.Index` | main.py:127-140 | the listing has one entry per job in job order; id, title, collaborators and finished flag are copied; duration is `end_date - start_date`; the leader is the last matching user's surname + " " + name; it fails with the missing id exactly when some job's leader matches no user, at the first such job |
| `Scenarios.ListingOfOneJob` | main.py:131-140 | a job led by user 1 "Ann Smith" is listed with leader "Smith Ann" and duration 10 |
| `Scenarios.ListingWithUnknownLeader` | main.py:131-140 | a later user with the same id replaces the earlier name, and a job led by unknown id 5 makes the listing fail with that id |

## Left out

- Database access (`create_session`, `query(...).all()`, `close`) is left out. The jobs and users arrive as sequences.
- Template rendering (`render_template`) is left out, and so are the Flask routes, redirects and the `logout` view. They are web I/O.
- `LoginForm`, `RegisterForm` and `WorkForm` are not modelled. They are declarations for a form-validation library whose code is not part of this model.
- `register`, `login`, `add_work` and `load_user` are not modelled. They persist or look up rows through the database session and only copy form fields. Password hashing lives in `data/users.py`, which is not part of this model. Session handling belongs to the login library.
- `data/departments.py` is not modelled. It is a table declaration with no behaviour. Its email uniqueness and its foreign key on `chief` are only declared there.
- `datetime` arithmetic is left out. Dates are whole day numbers and a duration is an integer number of days rather than a `timedelta`.
- Only the KeyError raised by the leader lookup for an integer team-leader id is modelled. A `NULL` `team_leader` matches no user in main.py:134 and raises `KeyError(None)` at main.py:137. The model cannot express that, because `Job.teamLeader` is always an integer. Other failures of the page are not modelled either, for example a database error or a date column that is `NULL`.
- `main.py` has no routes that edit or delete jobs or departments, and no ownership or admin checks, so the model has none.
- The display records in main.py:136-140 have six fields, and the model's `Entry` has exactly those six. The records do not carry the job row itself.

/**
 * The server's profile route: `GET` reports the user with totals over their
 * completed sessions; `PUT` validates a name and a bio, then changes the name only
 * when one is given and writes the bio into the user's settings only when one is
 * given.
 */
module ProfileRoute {
  import opened Wrappers
  import opened Numeric
  import opened Collections
  import opened Tables
  import AnalyticsRoute

  // ---------------------------------------------------------------------------
  // GET

  /** The reply body of GET: the user, no avatar, and the totals. */
  datatype ProfileView = ProfileView(
    id: string, name: Option<string>, email: string, bio: Option<string>, avatar: Option<string>,
    totalSessions: int, totalFocusTime: int)

  /**
   * `GET /api/profile`. With no user, one is created and reported with zero totals.
   * Otherwise nothing is written and the totals count and add up the durations of
   * the user's completed sessions. `findFirst` loads no settings, so bio is null.
   */
  function Get(db: Db, newUserId: string): (r: (Db, Reply<ProfileView>))
    ensures db.users == [] ==>
      r == (db.(users := [User(newUserId, DefaultEmail, None)]),
            Ok(ProfileView(newUserId, None, DefaultEmail, None, None, 0, 0)))
    ensures db.users != [] ==> (r.0 == db && r.1.Ok? && r.1.body.id == db.users[0].id &&
      r.1.body.name == db.users[0].name && r.1.body.email == db.users[0].email && r.1.body.bio.None?)
  {
    if db.users == [] then
      var user := User(newUserId, DefaultEmail, None);
      (db.(users := [user]), Ok(ProfileView(user.id, user.name, user.email, None, None, 0, 0)))
    else
      var user := db.users[0];
      var sessions := CompletedOf(db.sessions, user.id);
      (db, Ok(ProfileView(user.id, user.name, user.email, None, None, |sessions|, SumAll(sessions, Seconds))))
  }

  /** The completed sessions of `userId`, in a form the totals can be compared against. */
  predicate Counts(s: SessionRow, userId: string)
  {
    s.userId == userId && s.completed
  }

  /**
   * The totals follow the session table: a new completed session of the user adds
   * one session and its duration; any other new session changes neither.
   */
  lemma GetTotalsFollowSessions(db: Db, s: SessionRow, newUserId: string)
    requires db.users != []
    ensures var before := Get(db, newUserId).1.body;
      var after := Get(db.(sessions := db.sessions + [s]), newUserId).1.body;
      (Counts(s, db.users[0].id) ==>
        after.totalSessions == before.totalSessions + 1 &&
        after.totalFocusTime == before.totalFocusTime + s.duration) &&
      (!Counts(s, db.users[0].id) ==>
        after.totalSessions == before.totalSessions && after.totalFocusTime == before.totalFocusTime)
  {
    var id := db.users[0].id;
    CompletedOfAppend(db.sessions, s, id);
    SumAllAppend(CompletedOf(db.sessions, id), s, Seconds);
    assert CompletedOf(db.sessions, id) + [] == CompletedOf(db.sessions, id);
  }

  /** With no sessions stored the totals are zero, whether or not the user existed. */
  lemma GetTotalsEmpty(db: Db, newUserId: string)
    requires db.sessions == []
    ensures Get(db, newUserId).1.body.totalSessions == 0 && Get(db, newUserId).1.body.totalFocusTime == 0
  {
  }

  /**
   * The profile and the analytics report agree: when the report is computed, its
   * session count is the profile's and its focus hours are the profile's focus
   * seconds in tenths of an hour.
   */
  lemma ProfileAgreesWithAnalytics(db: Db, now: int, newUserId: string)
    requires db.users != []
    requires AnalyticsRoute.Get(db, now, newUserId).1.Ok?
    ensures var report := AnalyticsRoute.Get(db, now, newUserId).1.body;
      var profile := Get(db, newUserId).1.body;
      report.totalSessions == profile.totalSessions &&
      report.totalFocusHours == TenthsOfSeconds(profile.totalFocusTime)
  {
    var c := CompletedOf(db.sessions, db.users[0].id);
    SumAllPermutation(SortBy(c, AnalyticsRoute.NegStartedAt), c, Seconds);
  }

  // ---------------------------------------------------------------------------
  // PUT

  /** The fields of the request body that the route reads. */
  datatype ProfileUpdate = ProfileUpdate(name: Json, bio: Json)

  /** The reply body of PUT: the updated user, the bio as sent, no avatar. */
  datatype UpdatedView = UpdatedView(id: string, name: Option<string>, email: string, bio: Json, avatar: Option<string>)

  const NameLength: string := "Name must be between 2-50 characters"
  const BioFormat: string := "Invalid bio format"
  const BioLength: string := "Bio must be 200 characters or less"

  /** A name that is given must be a string of 2 to 50 characters. */
  predicate NameAcceptable(name: Json)
  {
    name.Undefined? || name.Null? || (name.Str? && 2 <= |name.s| <= 50)
  }

  /** The first validation the request fails, in the route's order, or None. */
  function Rejection(req: ProfileUpdate): (e: Option<string>)
    ensures e.None? <==> (NameAcceptable(req.name) &&
      (req.bio.Undefined? || req.bio.Null? || (req.bio.Str? && |req.bio.s| <= 200)))
    ensures !NameAcceptable(req.name) ==> e == Some(NameLength)
    ensures NameAcceptable(req.name) && !(req.bio.Undefined? || req.bio.Null? || req.bio.Str?) ==> e == Some(BioFormat)
    ensures NameAcceptable(req.name) && req.bio.Str? && |req.bio.s| > 200 ==> e == Some(BioLength)
  {
    if !NameAcceptable(req.name) then Some(NameLength)
    else if req.bio.Undefined? || req.bio.Null? then None
    else if !req.bio.Str? then Some(BioFormat)
    else if |req.bio.s| > 200 then Some(BioLength)
    else None
  }

  /** `value || null` for a string field: a non-empty string is stored, anything else as null. */
  function OrNull(value: Json): (r: Option<string>)
    ensures r.Some? <==> value.Str? && value.s != ""
    ensures r.Some? ==> r.value == value.s
  {
    if value.Str? && value.s != "" then Some(value.s) else None
  }

  /** The key `userSettings.findFirst` compares against a user id. */
  function Owner(row: SettingsRow): string
  {
    row.userId
  }

  /**
   * `PUT /api/profile`, step by step as the route awaits its queries. A rejected
   * request is a 400 with the first failed check's message and writes nothing.
   * Otherwise the user is found or created; the name is replaced, by `name || null`,
   * only when the request has one; when the request has a bio, the user's settings
   * row is updated, or one is created, with `bio || null`; the other tables are
   * untouched; the reply shows the user after the update and the bio as sent.
   */
  method Put(db: Db, req: ProfileUpdate, newUserId: string) returns (db': Db, reply: Reply<UpdatedView>)
    ensures Rejection(req).Some? ==> db' == db && reply == Error(400, Rejection(req).value)
    ensures Rejection(req).None? ==>
      var (d0, found) := GetOrCreateUser(db, newUserId);
      var user := if req.name.Undefined? then found else found.(name := OrNull(req.name));
      db'.users == [user] + d0.users[1..] &&
      db'.schedule == db.schedule && db'.sessions == db.sessions && db'.daily == db.daily &&
      reply == Ok(UpdatedView(user.id, user.name, user.email, req.bio, None))
    ensures Rejection(req).None? && req.bio.Undefined? ==> db'.settings == db.settings
    ensures Rejection(req).None? && !req.bio.Undefined? ==>
      var userId := GetOrCreateUser(db, newUserId).1.id;
      var j := IndexOf(db.settings, Owner, userId);
      (j >= 0 ==> db'.settings == db.settings[j := SettingsRow(userId, OrNull(req.bio))]) &&
      (j < 0 ==> db'.settings == db.settings + [SettingsRow(userId, OrNull(req.bio))])
  {
    var rejection := Rejection(req);
    if rejection.Some? {
      return db, Error(400, rejection.value);
    }
    var user: User;
    db', user := GetOrCreateUser(db, newUserId).0, GetOrCreateUser(db, newUserId).1;
    if !req.name.Undefined? {
      user := user.(name := OrNull(req.name));
      db' := db'.(users := [user] + db'.users[1..]);
    }
    if !req.bio.Undefined? {
      var row := SettingsRow(user.id, OrNull(req.bio));
      var j := IndexOf(db'.settings, Owner, user.id);
      if j >= 0 {
        db' := db'.(settings := db'.settings[j := row]);
      } else {
        db' := db'.(settings := db'.settings + [row]);
      }
    }
    reply := Ok(UpdatedView(user.id, user.name, user.email, req.bio, None));
  }

  /**
   * After a bio is written the user has exactly the settings rows they had, or one
   * new row if they had none, and the first of them holds `bio || null`; the rows of
   * every other user are unchanged.
   */
  lemma SettingsUpsertSpec(rows: seq<SettingsRow>, userId: string, value: Option<string>)
    ensures var j := IndexOf(rows, Owner, userId);
      var after := if j >= 0 then rows[j := SettingsRow(userId, value)] else rows + [SettingsRow(userId, value)];
      IndexOf(after, Owner, userId) >= 0 &&
      after[IndexOf(after, Owner, userId)] == SettingsRow(userId, value) &&
      (forall i :: 0 <= i < |rows| && rows[i].userId != userId ==> after[i] == rows[i]) &&
      |after| == (if j >= 0 then |rows| else |rows| + 1)
  {
    var j := IndexOf(rows, Owner, userId);
    var after := if j >= 0 then rows[j := SettingsRow(userId, value)] else rows + [SettingsRow(userId, value)];
    if j >= 0 {
      assert after[j].userId == userId;
      assert forall i :: 0 <= i < j ==> after[i].userId != userId;
    } else {
      assert after[|rows|].userId == userId;
      assert forall i :: 0 <= i < |rows| ==> after[i].userId != userId;
    }
  }

  /** `bio || null`: an empty bio is stored as null, like an explicit null. */
  lemma OrNullExamples()
    ensures OrNull(Str("")) == None && OrNull(Null) == None && OrNull(Str("Reads a lot")) == Some("Reads a lot")
  {
  }
}

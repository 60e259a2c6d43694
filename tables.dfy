/**
 * The server's database as a value: one sequence per table, rows in storage order.
 * A route takes the tables and returns the tables it leaves behind with its reply.
 * Session durations are seconds; instants are milliseconds.
 */
module Tables {
  import opened Wrappers
  import opened Collections

  datatype User = User(id: string, email: string, name: Option<string>)

  datatype ScheduleRow = ScheduleRow(
    id: string, userId: string, subject: string, tag: Option<string>, date: string,
    time: string, duration: int, order: int, completed: bool)

  datatype SessionRow = SessionRow(
    id: string, userId: string, subject: string, duration: int, startedAt: int, completed: bool)

  /** One per user and day; `date` is the instant of that day's start. */
  datatype DailyRow = DailyRow(userId: string, date: int, sessionsCompleted: int, totalFocusTime: int)

  datatype SettingsRow = SettingsRow(userId: string, preferredAmbientSound: Option<string>)

  datatype Db = Db(
    users: seq<User>, schedule: seq<ScheduleRow>, sessions: seq<SessionRow>,
    daily: seq<DailyRow>, settings: seq<SettingsRow>)

  /**
   * A field of a JSON request body as JavaScript sees it: absent, `null`, a boolean,
   * a whole number, a string, or an object or array.
   */
  datatype Json = Undefined | Null | Bool(b: bool) | Num(n: int) | Str(s: string) | Compound

  /** JavaScript truthiness; every object and array is truthy. */
  predicate Truthy(v: Json)
  {
    match v
    case Undefined => false
    case Null => false
    case Bool(b) => b
    case Num(n) => n != 0
    case Str(s) => s != ""
    case Compound => true
  }

  /** A route's answer: a JSON body, or an error status with its message. */
  datatype Reply<T> = Ok(body: T) | Error(status: int, message: string)

  const DefaultEmail: string := "user@example.com"

  /**
   * `db.user.findFirst()` and, when there is no user, `db.user.create` with the
   * default email: the user the routes act for and the tables after the lookup.
   */
  function GetOrCreateUser(db: Db, newId: string): (r: (Db, User))
    ensures db.users != [] ==> r == (db, db.users[0])
    ensures db.users == [] ==> r.1 == User(newId, DefaultEmail, None) && r.0 == db.(users := [r.1])
    ensures r.0.users != [] && r.0.users[0] == r.1
  {
    if db.users != [] then (db, db.users[0])
    else
      var u := User(newId, DefaultEmail, None);
      (db.(users := [u]), u)
  }

  function IsCompleted(s: SessionRow): bool
  {
    s.completed
  }

  /** `focusSession.findMany({ where: { userId, completed: true } })`, in storage order. */
  function CompletedOf(sessions: seq<SessionRow>, userId: string): (r: seq<SessionRow>)
    ensures forall i :: 0 <= i < |r| ==> r[i].userId == userId && r[i].completed && r[i] in sessions
    ensures forall i :: 0 <= i < |sessions| && sessions[i].userId == userId && sessions[i].completed ==>
      sessions[i] in r
  {
    Filter(sessions, (s: SessionRow) => s.userId == userId && s.completed)
  }

  /** A new session adds itself to the completed sessions of its user, and to no one else's. */
  lemma CompletedOfAppend(sessions: seq<SessionRow>, s: SessionRow, userId: string)
    ensures CompletedOf(sessions + [s], userId)
         == CompletedOf(sessions, userId) + (if s.userId == userId && s.completed then [s] else [])
  {
    var p := (x: SessionRow) => x.userId == userId && x.completed;
    FilterAppend(sessions, [s], p);
    assert Filter([s], p) == (if p(s) then [s] else []) + Filter([s][1..], p);
    assert [s][1..] == [];
  }

  function Seconds(s: SessionRow): int
  {
    s.duration
  }
}

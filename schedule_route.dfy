/**
 * The server's schedule route: `GET` lists the stored items of one date, ascending
 * by `order`, with times shown on a 12-hour clock; `POST` validates a new item and
 * stores it for the (possibly new) user.
 */
module ScheduleRoute {
  import opened Wrappers
  import opened Decimal
  import opened Text
  import opened Collections
  import opened Tables

  // ---------------------------------------------------------------------------
  // The `HH:mm` pattern `^([01]?[0-9]|2[0-3]):[0-5][0-9]$`

  /** `[01]?[0-9]|2[0-3]`: one digit, or a two-digit hour from 00 to 23. */
  predicate HourField(h: string)
  {
    (|h| == 1 && IsDigit(h[0])) ||
    (|h| == 2 && (((h[0] == '0' || h[0] == '1') && IsDigit(h[1])) || (h[0] == '2' && '0' <= h[1] <= '3')))
  }

  /** `[0-5][0-9]`. */
  predicate MinuteField(m: string)
  {
    |m| == 2 && '0' <= m[0] <= '5' && IsDigit(m[1])
  }

  /** The whole text is an hour field, a colon and a minute field. */
  predicate MatchesTime(t: string)
  {
    (|t| == 4 && t[1] == ':' && HourField(t[..1]) && MinuteField(t[2..])) ||
    (|t| == 5 && t[2] == ':' && HourField(t[..2]) && MinuteField(t[3..]))
  }

  /** The hour a matching time denotes. */
  function HourOf(t: string): int
    requires MatchesTime(t)
  {
    ValueOf(t[..|t| - 3])
  }

  /** A number below 100 in exactly two digits, with a leading zero below 10. */
  function TwoDigits(n: nat): (s: string)
    requires n < 100
  {
    [DigitChar(n / 10), DigitChar(n % 10)]
  }

  /** An hour field is digits without a colon, read back by `parseInt` as 0 to 23. */
  lemma HourFieldValue(h: string)
    requires HourField(h)
    ensures AllDigits(h) && ':' !in h
    ensures ParseInt(h) == Some(ValueOf(h)) && ValueOf(h) < 24
  {
    ValueOfShort(h);
    LeadingDigitsOfDigits(h);
  }

  /** A minute field is two digits without a colon, worth less than 60. */
  lemma MinuteFieldValue(m: string)
    requires MinuteField(m)
    ensures AllDigits(m) && ':' !in m && ValueOf(m) < 60
  {
    ValueOfShort(m);
  }

  /**
   * A matching time splits at its colon into the hour text and the two minute digits;
   * the hour reads back as a number from 0 to 23 and the minutes as one below 60.
   */
  lemma MatchesTimeSound(t: string)
    requires MatchesTime(t)
    ensures Split(t, ':') == [t[..|t| - 3], t[|t| - 2..]]
    ensures ParseInt(t[..|t| - 3]) == Some(HourOf(t))
    ensures 0 <= HourOf(t) < 24
    ensures AllDigits(t[|t| - 2..]) && ValueOf(t[|t| - 2..]) < 60
  {
    var h := t[..|t| - 3];
    var m := t[|t| - 2..];
    if |t| == 4 {
      assert h == t[..1] && m == t[2..];
    } else {
      assert h == t[..2] && m == t[3..];
    }
    HourFieldValue(h);
    MinuteFieldValue(m);
    SplitAt(t, |t| - 3, ':');
  }

  /** An hour field, a colon and a minute field match, and the hour read is the field's value. */
  lemma JoinedFields(hh: string, mm: string)
    requires HourField(hh) && MinuteField(mm)
    ensures MatchesTime(hh + ":" + mm) && HourOf(hh + ":" + mm) == ValueOf(hh)
  {
    var t := hh + ":" + mm;
    if |hh| == 1 {
      assert t[1] == ':' && t[..1] == hh && t[2..] == mm;
    } else {
      assert t[2] == ':' && t[..2] == hh && t[3..] == mm;
    }
    assert t[..|t| - 3] == hh;
  }

  /**
   * Every hour from 0 to 23 and minute from 0 to 59 matches, with the hour written in
   * two digits or in its shortest form.
   */
  lemma MatchesTimeComplete(h: nat, m: nat)
    requires h < 24 && m < 60
    ensures MatchesTime(TwoDigits(h) + ":" + TwoDigits(m)) && HourOf(TwoDigits(h) + ":" + TwoDigits(m)) == h
    ensures MatchesTime(NatToString(h) + ":" + TwoDigits(m)) && HourOf(NatToString(h) + ":" + TwoDigits(m)) == h
  {
    assert MinuteField(TwoDigits(m));
    ValueOfShort(TwoDigits(h));
    JoinedFields(TwoDigits(h), TwoDigits(m));
    if h < 10 {
      assert NatToString(h) == [DigitChar(h)];
      ValueOfShort(NatToString(h));
    } else {
      assert NatToString(h) == TwoDigits(h);
    }
    JoinedFields(NatToString(h), TwoDigits(m));
  }

  /** `"9:30"`, `"09:30"` and `"23:59"` match; hour 24, minute 60, one minute digit or a trailing space do not. */
  lemma MatchesTimeExamples()
    ensures MatchesTime("9:30") && MatchesTime("09:30") && MatchesTime("23:59")
    ensures !MatchesTime("24:00") && !MatchesTime("9:60") && !MatchesTime("9:5")
    ensures !MatchesTime("123:00") && !MatchesTime("12:30 ")
  {
    assert "9:30"[..1] == "9" && "9:30"[2..] == "30";
    assert "09:30"[..2] == "09" && "09:30"[3..] == "30";
    assert "23:59"[..2] == "23" && "23:59"[3..] == "59";
    assert "24:00"[..2] == "24";
    assert "9:60"[2..] == "60";
  }

  // ---------------------------------------------------------------------------
  // The 12-hour display

  /** JavaScript's `%` for a positive divisor: the remainder takes the sign of `a`. */
  function JsRem(a: int, b: int): (r: int)
    requires b > 0
    ensures a >= 0 ==> 0 <= r < b && r == a % b
    ensures a < 0 ==> -b < r <= 0
    ensures a < 0 ==> r == -((-a) % b)
  {
    if a >= 0 then a % b else -((-a) % b)
  }

  /** Truncation is symmetric: negating the dividend negates the remainder. */
  lemma JsRemOdd(a: int, b: int)
    requires b > 0
    ensures JsRem(-a, b) == -JsRem(a, b)
  {
  }

  /**
   * `` `${hour12}:${mins} ${ampm}` `` for a stored time: split at ':', the first piece
   * read by `parseInt` (NaN gives 12 and "AM"), the second piece or "undefined".
   */
  function FormatTime(time: string): string
  {
    var parts := Split(time, ':');
    var mins := if |parts| >= 2 then parts[1] else "undefined";
    var hour := ParseInt(parts[0]);
    var ampm := if hour.Some? && hour.value >= 12 then "PM" else "AM";
    var rem := if hour.Some? then JsRem(hour.value, 12) else 0;
    var hour12 := if rem == 0 then 12 else rem;
    IntToString(hour12) + ":" + mins + " " + ampm
  }

  /** The hour on a 12-hour clock face, for an hour from 0 to 23. */
  function Hour12(h: int): int
  {
    if h % 12 == 0 then 12 else h % 12
  }

  /** The clock-face hour lies in 1..12 and agrees with the hour modulo 12. */
  lemma Hour12Range(h: int)
    ensures 1 <= Hour12(h) <= 12 && Hour12(h) % 12 == h % 12
  {
  }

  function Suffix(h: int): string
  {
    if h < 12 then "AM" else "PM"
  }

  /** The display of a matching time, in terms of its hour and minute digits. */
  lemma FormatMatching(t: string)
    requires MatchesTime(t)
    ensures FormatTime(t) == IntToString(Hour12(HourOf(t))) + ":" + t[|t| - 2..] + " " + Suffix(HourOf(t))
  {
    MatchesTimeSound(t);
  }

  /**
   * For a matching time the display hour lies in 1..12 and agrees with the hour
   * modulo 12, the minutes are copied unchanged, and the suffix is "AM" exactly when
   * the hour is below 12.
   */
  lemma FormatTimeSpec(t: string)
    requires MatchesTime(t)
    ensures exists h12 :: (1 <= h12 <= 12 && h12 % 12 == HourOf(t) % 12 &&
      FormatTime(t) == IntToString(h12) + ":" + t[|t| - 2..] + " " + (if HourOf(t) < 12 then "AM" else "PM"))
  {
    FormatMatching(t);
    Hour12Range(HourOf(t));
    var h12 := Hour12(HourOf(t));
    assert FormatTime(t) == IntToString(h12) + ":" + t[|t| - 2..] + " " + Suffix(HourOf(t));
  }

  /** A display text determines its hour text, its minutes and its suffix. */
  lemma DisplayInjective(x: string, mm: string, sfx: string, y: string, nn: string, tfx: string)
    requires |mm| == 2 && |sfx| == 2 && |nn| == 2 && |tfx| == 2
    requires x + ":" + mm + " " + sfx == y + ":" + nn + " " + tfx
    ensures x == y && mm == nn && sfx == tfx
  {
    var p := ":" + mm + " " + sfx;
    var q := ":" + nn + " " + tfx;
    assert x + ":" + mm + " " + sfx == x + p;
    assert y + ":" + nn + " " + tfx == y + q;
    assert |x| == |y|;
    assert x == (x + p)[..|x|] && y == (y + q)[..|y|];
    assert p == (x + p)[|x|..] && q == (y + q)[|y|..];
    assert mm == p[1..3] && nn == q[1..3];
    assert sfx == p[4..] && tfx == q[4..];
  }

  /** The clock-face hour and the suffix together single out an hour from 0 to 23. */
  lemma Hour12Determines(h: int, k: int)
    requires 0 <= h < 24 && 0 <= k < 24
    requires Hour12(h) == Hour12(k) && Suffix(h) == Suffix(k)
    ensures h == k
  {
    assert (h < 12) == (k < 12) by {
      assert Suffix(h) == Suffix(k);
      assert "AM" != "PM";
    }
  }

  /** The display keeps the hour and the minutes: two matching times shown alike have both equal. */
  lemma FormatTimeKeepsHour(t: string, u: string)
    requires MatchesTime(t) && MatchesTime(u)
    requires FormatTime(t) == FormatTime(u)
    ensures HourOf(t) == HourOf(u)
    ensures t[|t| - 2..] == u[|u| - 2..]
  {
    MatchesTimeSound(t);
    MatchesTimeSound(u);
    FormatMatching(t);
    FormatMatching(u);
    DisplayInjective(IntToString(Hour12(HourOf(t))), t[|t| - 2..], Suffix(HourOf(t)),
                     IntToString(Hour12(HourOf(u))), u[|u| - 2..], Suffix(HourOf(u)));
    IntToStringInjective(Hour12(HourOf(t)), Hour12(HourOf(u)));
    Hour12Determines(HourOf(t), HourOf(u));
  }

  lemma TwelveText()
    ensures IntToString(12) == "12"
  {
    assert NatToString(12) == NatToString(1) + [DigitChar(2)];
  }

  /** The display text of hour h and minutes mm, by the four cases of the clock face. */
  lemma DisplayCases(h: int, mm: string)
    requires 0 <= h < 24
    ensures var s := IntToString(Hour12(h)) + ":" + mm + " " + Suffix(h);
      (h == 0 ==> s == "12:" + mm + " AM") &&
      (1 <= h < 12 ==> s == IntToString(h) + ":" + mm + " AM") &&
      (h == 12 ==> s == "12:" + mm + " PM") &&
      (13 <= h ==> s == IntToString(h - 12) + ":" + mm + " PM")
  {
    if h == 0 || h == 12 {
      assert Hour12(h) == 12;
      TwelveText();
      assert "12" + ":" + mm + " " + Suffix(h) == "12:" + mm + " " + Suffix(h);
    } else if h < 12 {
      assert Hour12(h) == h;
    } else {
      assert Hour12(h) == h - 12;
    }
  }

  /**
   * The four cases of the display: hour 0 is shown as 12 AM, hours 1 to 11 as
   * themselves with AM, hour 12 as 12 PM, and hours 13 to 23 less twelve with PM.
   */
  lemma FormatTimeCases(t: string)
    requires MatchesTime(t)
    ensures var mm := t[|t| - 2..];
      (HourOf(t) == 0 ==> FormatTime(t) == "12:" + mm + " AM") &&
      (1 <= HourOf(t) < 12 ==> FormatTime(t) == IntToString(HourOf(t)) + ":" + mm + " AM") &&
      (HourOf(t) == 12 ==> FormatTime(t) == "12:" + mm + " PM") &&
      (13 <= HourOf(t) ==> FormatTime(t) == IntToString(HourOf(t) - 12) + ":" + mm + " PM")
  {
    MatchesTimeSound(t);
    FormatMatching(t);
    DisplayCases(HourOf(t), t[|t| - 2..]);
  }

  // ---------------------------------------------------------------------------
  // GET

  /** One formatted item of the reply. */
  datatype ItemView = ItemView(
    id: string, subject: string, time: string, duration: string, tag: string, completed: bool, order: int)

  /** The reply body: the formatted items and the date asked for. */
  datatype ScheduleDay = ScheduleDay(items: seq<ItemView>, date: string)

  const DateRequired: string := "Date parameter is required"

  /** `item.tag || 'General'`. */
  function TagText(tag: Option<string>): string
  {
    if tag.Some? && tag.value != "" then tag.value else "General"
  }

  function View(row: ScheduleRow): ItemView
  {
    ItemView(row.id, row.subject, FormatTime(row.time), IntToString(row.duration) + " min",
             TagText(row.tag), row.completed, row.order)
  }

  /**
   * What a formatted item keeps of its row: id, subject, completion and order as
   * stored, a duration text that reads back as the stored minutes before " min", the
   * stored tag unless it is missing or empty, and the 12-hour form of a valid time.
   */
  lemma ViewSpec(row: ScheduleRow)
    ensures var v := View(row);
      v.id == row.id && v.subject == row.subject && v.completed == row.completed && v.order == row.order &&
      |v.duration| > 4 && v.duration[|v.duration| - 4..] == " min" &&
      ParseInt(v.duration[..|v.duration| - 4]) == Some(row.duration) &&
      (v.tag == "General" <==> row.tag.None? || row.tag.value == "" || row.tag.value == "General") &&
      (row.tag.Some? && row.tag.value != "" ==> v.tag == row.tag.value)
    ensures MatchesTime(row.time) ==> exists h12 :: (1 <= h12 <= 12 && h12 % 12 == HourOf(row.time) % 12 &&
      View(row).time == IntToString(h12) + ":" + row.time[|row.time| - 2..] + " " +
        (if HourOf(row.time) < 12 then "AM" else "PM"))
  {
    var d := View(row).duration;
    assert d[..|d| - 4] == IntToString(row.duration);
    IntToStringRoundTrip(row.duration);
    if MatchesTime(row.time) {
      FormatTimeSpec(row.time);
    }
  }

  function RowOrder(row: ScheduleRow): int
  {
    row.order
  }

  /** `scheduleItem.findMany({ where: { userId, date }, orderBy: { order: 'asc' } })`. */
  function ItemsOn(rows: seq<ScheduleRow>, userId: string, date: string): (r: seq<ScheduleRow>)
    ensures |r| == |Filter(rows, (x: ScheduleRow) => x.userId == userId && x.date == date)|
  {
    SortBy(Filter(rows, (x: ScheduleRow) => x.userId == userId && x.date == date), RowOrder)
  }

  /**
   * Exactly the user's rows of that date, ascending by `order`, rows of equal order
   * in storage order.
   */
  lemma ItemsOnSpec(rows: seq<ScheduleRow>, userId: string, date: string)
    ensures var r := ItemsOn(rows, userId, date);
      (forall i :: 0 <= i < |r| ==> r[i].userId == userId && r[i].date == date && r[i] in rows) &&
      (forall i :: 0 <= i < |rows| && rows[i].userId == userId && rows[i].date == date ==> rows[i] in r)
    ensures SortedBy(ItemsOn(rows, userId, date), RowOrder)
    ensures forall k :: WithKey(ItemsOn(rows, userId, date), RowOrder, k)
                     == WithKey(Filter(rows, (x: ScheduleRow) => x.userId == userId && x.date == date), RowOrder, k)
  {
    var chosen := Filter(rows, (x: ScheduleRow) => x.userId == userId && x.date == date);
    SortByMembers(chosen, RowOrder);
    forall k ensures WithKey(ItemsOn(rows, userId, date), RowOrder, k) == WithKey(chosen, RowOrder, k) {
      SortByStable(chosen, RowOrder, k);
    }
  }

  function Views(rows: seq<ScheduleRow>): (vs: seq<ItemView>)
    ensures |vs| == |rows|
    ensures forall i :: 0 <= i < |rows| ==> vs[i] == View(rows[i])
  {
    if rows == [] then [] else [View(rows[0])] + Views(rows[1..])
  }

  /**
   * `GET /api/schedule?date=`: a missing or empty date is a 400 that reads and writes
   * nothing; otherwise the user is found or created and the reply lists that user's
   * items of the date, one formatted item per row of `ItemsOn`.
   */
  function Get(db: Db, date: Option<string>, newUserId: string): (r: (Db, Reply<ScheduleDay>))
    ensures date.None? || date.value == "" ==> r == (db, Error(400, DateRequired))
    ensures date.Some? && date.value != "" ==>
      var (db', user) := GetOrCreateUser(db, newUserId);
      r.0 == db' && r.1.Ok? && r.1.body.date == date.value &&
      r.1.body.items == Views(ItemsOn(db'.schedule, user.id, date.value))
  {
    if date.None? || date.value == "" then (db, Error(400, DateRequired))
    else
      var (db', user) := GetOrCreateUser(db, newUserId);
      (db', Ok(ScheduleDay(Views(ItemsOn(db'.schedule, user.id, date.value)), date.value)))
  }

  // ---------------------------------------------------------------------------
  // POST

  /** The fields of the request body that the route reads. */
  datatype ItemRequest = ItemRequest(subject: Json, tag: Json, time: Json, duration: Json, date: Json, order: Json)

  /** The reply to a successful POST. */
  datatype Created = Created(id: string, subject: string, time: string, duration: int, tag: string, completed: bool)

  const FieldsRequired: string := "Subject, time, duration, and date are required"
  const DurationPositive: string := "Duration must be a positive number"
  const TimeFormat: string := "Invalid time format. Use HH:mm"
  const CreateFailed: string := "Failed to create schedule item"

  /** The first validation the request fails, in the route's order, or None when it passes. */
  function Rejection(req: ItemRequest): (e: Option<string>)
    ensures e.None? <==> (Truthy(req.subject) && Truthy(req.time) && Truthy(req.date) &&
      req.duration.Num? && req.duration.n > 0 && req.time.Str? && MatchesTime(req.time.s))
    ensures !(Truthy(req.subject) && Truthy(req.time) && Truthy(req.duration) && Truthy(req.date)) ==>
      e == Some(FieldsRequired)
  {
    if !Truthy(req.subject) || !Truthy(req.time) || !Truthy(req.duration) || !Truthy(req.date) then
      Some(FieldsRequired)
    else if !req.duration.Num? || req.duration.n <= 0 then Some(DurationPositive)
    else if !req.time.Str? || !MatchesTime(req.time.s) then Some(TimeFormat)
    else None
  }

  /** `tag || 'General'` as stored: None when the value cannot be stored in the text column. */
  function StoredTag(tag: Json): Option<string>
  {
    if !Truthy(tag) then Some("General") else if tag.Str? then Some(tag.s) else None
  }

  /** `order ?? 0` as stored: None when the value cannot be stored in the integer column. */
  function StoredOrder(order: Json): Option<int>
  {
    if order.Undefined? || order.Null? then Some(0) else if order.Num? then Some(order.n) else None
  }

  /** The database accepts the row: text subject and date, a storable tag and order. */
  predicate Storable(req: ItemRequest)
  {
    req.subject.Str? && req.date.Str? && StoredTag(req.tag).Some? && StoredOrder(req.order).Some?
  }

  /**
   * `POST /api/schedule`. A request rejected by validation is a 400 with the first
   * failed check's message and no write. A valid one finds or creates the user and
   * appends one new row, not completed, with the stored tag and order; the reply
   * echoes the row. A valid request the database refuses is a 500, after the user
   * was created.
   */
  function Post(db: Db, req: ItemRequest, newUserId: string, newItemId: string): (r: (Db, Reply<Created>))
    ensures Rejection(req).Some? ==> r == (db, Error(400, Rejection(req).value))
    ensures Rejection(req).None? && !Storable(req) ==> r == (GetOrCreateUser(db, newUserId).0, Error(500, CreateFailed))
    ensures Rejection(req).None? && Storable(req) ==>
      var (db', user) := GetOrCreateUser(db, newUserId);
      var row := ScheduleRow(newItemId, user.id, req.subject.s, StoredTag(req.tag), req.date.s,
                             req.time.s, req.duration.n, StoredOrder(req.order).value, false);
      r.0 == db'.(schedule := db'.schedule + [row]) &&
      r.1 == Ok(Created(newItemId, req.subject.s, req.time.s, req.duration.n, StoredTag(req.tag).value, false))
  {
    match Rejection(req)
    case Some(message) => (db, Error(400, message))
    case None =>
      var (db', user) := GetOrCreateUser(db, newUserId);
      if !Storable(req) then (db', Error(500, CreateFailed))
      else
        var tag := StoredTag(req.tag);
        var row := ScheduleRow(newItemId, user.id, req.subject.s, tag, req.date.s,
                               req.time.s, req.duration.n, StoredOrder(req.order).value, false);
        (db'.(schedule := db'.schedule + [row]),
         Ok(Created(newItemId, req.subject.s, req.time.s, req.duration.n, tag.value, false)))
  }

  /**
   * A successful POST stores exactly one new item, after every earlier row, for the
   * user it replies for: not completed, with a positive duration, a valid time, the
   * tag "General" when none was given and the order 0 only when none was given.
   * A rejected one leaves every table as it was.
   */
  lemma PostSpec(db: Db, req: ItemRequest, newUserId: string, newItemId: string)
    ensures var (db', reply) := Post(db, req, newUserId, newItemId);
      reply.Error? && reply.status == 400 ==> db' == db
    ensures var (db', reply) := Post(db, req, newUserId, newItemId);
      reply.Ok? ==>
        |db'.schedule| == |db.schedule| + 1 && db'.schedule[..|db.schedule|] == db.schedule &&
        db'.sessions == db.sessions && db'.daily == db.daily && db'.settings == db.settings &&
        var row := db'.schedule[|db.schedule|];
        row.id == newItemId && row.userId == db'.users[0].id && !row.completed &&
        row.duration > 0 && MatchesTime(row.time) &&
        (row.tag == Some("General") <==> !Truthy(req.tag) || req.tag == Str("General")) &&
        (row.order == 0 <==> req.order.Undefined? || req.order.Null? || req.order == Num(0)) &&
        reply.body.id == row.id && reply.body.time == row.time && reply.body.duration == row.duration
    ensures Post(db, req, newUserId, newItemId).1.Ok? <==> Rejection(req).None? && Storable(req)
  {
    var (db', reply) := Post(db, req, newUserId, newItemId);
    if reply.Ok? {
      var (d0, user) := GetOrCreateUser(db, newUserId);
      assert db'.schedule == d0.schedule + [db'.schedule[|db.schedule|]];
    }
  }

  /** The checks run in order: a missing field is reported before a bad duration or time. */
  lemma PostRejectionOrder(db: Db, newUserId: string, newItemId: string)
    ensures Post(db, ItemRequest(Str("Maths"), Undefined, Str("25:00"), Num(-5), Undefined, Undefined),
                 newUserId, newItemId).1 == Error(400, FieldsRequired)
    ensures Post(db, ItemRequest(Str("Maths"), Undefined, Str("25:00"), Str("30"), Str("2024-01-01"), Undefined),
                 newUserId, newItemId).1 == Error(400, DurationPositive)
    ensures Post(db, ItemRequest(Str("Maths"), Undefined, Str("25:00"), Num(30), Str("2024-01-01"), Undefined),
                 newUserId, newItemId).1 == Error(400, TimeFormat)
  {
    assert "25:00"[..2] == "25";
  }
}

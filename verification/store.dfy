/**
 * The server's data model: the `events`, `bookmarks` and `users` tables as one
 * immutable store value, the rows the event endpoints return, and the JSON
 * responses they send.
 */
module Store {
  import opened Wrappers
  import opened Timestamps

  type EventId = nat
  type UserId = nat

  /**
   * A column value as the controller binds it: SQL NULL (a JavaScript
   * `undefined` or `null`), a string, or a number. The store keeps bound
   * values as given; coercion to the column types is not modelled.
   */
  datatype Value = Null | Text(s: string) | Int(n: int)

  /** One row of `events`, without its key. */
  datatype Event = Event(
    nama_acara: Value,
    deskripsi: Value,
    tanggal_mulai: Value,
    lokasi: Value,
    kategori: Value,
    kuota_maksimal: Value,
    harga_tiket: Value,
    contact_person: Value,
    banner_image: Value,
    creator_id: UserId)

  /** One row of `bookmarks`. */
  datatype Bookmark = Bookmark(user: UserId, event: EventId)

  /**
   * The three tables. `events` is keyed by `event_id`; `nextId` is the
   * auto-increment counter; `bookmarks` is a multiset because the table
   * declares no uniqueness the controller could rely on; `users` maps
   * `user_id` to `nama`.
   */
  datatype Db = Db(
    events: map<EventId, Event>,
    bookmarks: multiset<Bookmark>,
    users: map<UserId, string>,
    nextId: EventId)

  /**
   * Invariant of the tables: ids are handed out from 1 upward by the counter,
   * and every bookmark belongs to a real (positive) user id.
   */
  predicate Consistent(db: Db) {
    && db.nextId >= 1
    && (forall id :: id in db.events ==> 1 <= id < db.nextId)
    && (forall b :: b in db.bookmarks ==> b.user >= 1)
  }

  /** A `tanggal_mulai` value read as a DATETIME; `None` for NULL or text the column cannot hold. */
  function ParseStart(v: Value): Option<Timestamp> {
    match v
    case Text(s) => ParseCanonical(s)
    case _ => None
  }

  function StartOf(e: Event): Option<Timestamp> {
    ParseStart(e.tanggal_mulai)
  }

  /** Ascending order of `tanggal_mulai` values, NULL (and unreadable) first. */
  predicate StartValueLe(a: Value, b: Value) {
    var x, y := ParseStart(a), ParseStart(b);
    x.None? || (y.Some? && Le(x.value, y.value))
  }

  /** An `events` row together with its key. */
  datatype Row = Row(id: EventId, event: Event)

  /** Keys of `events` below `n`, in ascending order. */
  function IdsBelow(events: map<EventId, Event>, n: nat): (r: seq<EventId>)
    ensures forall id :: id in r <==> id in events && id < n
    ensures forall i, j :: 0 <= i < j < |r| ==> r[i] < r[j]
    ensures forall i :: 0 <= i < |r| ==> r[i] < n
  {
    if n == 0 then []
    else IdsBelow(events, n - 1) + (if n - 1 in events then [n - 1] else [])
  }

  /** A full scan of `events` in key order. */
  function Scan(db: Db): (rows: seq<Row>)
    ensures forall i :: 0 <= i < |rows| ==> rows[i].id in db.events && db.events[rows[i].id] == rows[i].event
    ensures forall i, j :: 0 <= i < j < |rows| ==> rows[i].id < rows[j].id
    ensures Consistent(db) ==> forall id :: id in db.events ==> exists i :: 0 <= i < |rows| && rows[i].id == id
  {
    var ids := IdsBelow(db.events, db.nextId);
    var rows := seq(|ids|, i requires 0 <= i < |ids| => Row(ids[i], db.events[ids[i]]));
    forall id | Consistent(db) && id in db.events
      ensures exists i :: 0 <= i < |rows| && rows[i].id == id
    {
      var i :| 0 <= i < |ids| && ids[i] == id;
      assert rows[i].id == id;
    }
    rows
  }

  /** The number of bookmark rows for `(user, id)`: the `COUNT(*)` subquery. */
  function BookmarkCount(db: Db, user: UserId, id: EventId): nat {
    db.bookmarks[Bookmark(user, id)]
  }

  /** A row of the event list: the selected columns plus the bookmark flag. */
  datatype Summary = Summary(
    event_id: EventId,
    nama_acara: Value,
    deskripsi: Value,
    tanggal_mulai: Value,
    lokasi: Value,
    banner_image: Value,
    kategori: Value,
    harga_tiket: Value,
    is_bookmarked: bool)

  /** The event detail: every column plus the creator's name from a left join. */
  datatype Detail = Detail(event_id: EventId, event: Event, nama_creator: Option<string>)

  datatype Payload =
    | EventList(rows: seq<Summary>)
    | CategoryList(names: seq<string>)
    | EventDetail(detail: Detail)
    | Created(message: string, event_id: EventId, nama_acara: string, image_url: string)
    | Message(text: string)

  /** A JSON response: an HTTP status and what the body carries. */
  datatype Response = Response(status: nat, payload: Payload)

  const ServerErrorMessage := "Server Error"
}

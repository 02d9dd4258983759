/**
 * The single-event endpoints: `getEventById`, `createEvent`, `updateEvent`
 * and `deleteEvent`. Each takes the store and the request's parts and
 * returns the new store with the response.
 */
module EventMutation {
  import opened Wrappers
  import opened Text
  import opened Store
  import Upload

  const NotFoundMessage := "Event tidak ditemukan"
  const MissingFieldsMessage := "Nama acara, tanggal, dan lokasi wajib diisi!"
  const UnauthorizedMessage := "Unauthorized"
  const CreatedMessage := "Event berhasil ditambahkan"
  const UpdatedMessage := "Event berhasil diperbarui"
  const DeletedMessage := "Event berhasil dihapus"
  const DefaultBanner := "default_event.jpg"

  /** The text fields of `req.body`; a field the form did not send is `None`. */
  datatype EventBody = EventBody(
    nama_acara: Option<string>,
    deskripsi: Option<string>,
    tanggal_mulai: Option<string>,
    lokasi: Option<string>,
    kategori: Option<string>,
    kuota_maksimal: Option<string>,
    harga_tiket: Option<string>,
    contact_person: Option<string>)

  /** A field bound as given: `undefined` becomes NULL. */
  function Raw(o: Option<string>): (v: Value)
    ensures o.None? <==> v.Null?
    ensures o.Some? ==> v == Text(o.value)
  {
    match o
    case None => Null
    case Some(s) => Text(s)
  }

  /** `x || 0`: a falsy field is stored as the number 0. */
  function OrZero(o: Option<string>): (v: Value)
    ensures Truthy(o) ==> v == Text(o.value)
    ensures !Truthy(o) ==> v == Int(0)
  {
    if Truthy(o) then Text(o.value) else Int(0)
  }

  /** `x || '-'`. */
  function OrDash(o: Option<string>): (v: Value)
    ensures Truthy(o) ==> v == Text(o.value)
    ensures !Truthy(o) ==> v == Text("-")
  {
    if Truthy(o) then Text(o.value) else Text("-")
  }

  /** The `:id` parameter as the key it selects; text that is not a decimal number selects nothing. */
  function KeyOf(idParam: string): (k: Option<EventId>)
    ensures forall n: nat :: idParam == NatToString(n) ==> k == Some(n)
  {
    forall n: nat | idParam == NatToString(n) ensures ParseNat(idParam) == Some(n) {
      ParseNatToString(n);
    }
    ParseNat(idParam)
  }

  /** The row the `:id` parameter selects, if any. */
  function Lookup(db: Db, idParam: string): (r: Option<EventId>)
    ensures r.Some? ==> r.value in db.events && KeyOf(idParam) == r
    ensures r.None? ==> KeyOf(idParam).None? || KeyOf(idParam).value !in db.events
  {
    match KeyOf(idParam)
    case Some(id) => if id in db.events then Some(id) else None
    case None => None
  }

  // ---------------------------------------------------------------------------
  // getEventById

  /** `getEventById`: every column plus the creator's name, or 404. */
  function GetEventById(db: Db, idParam: string): (r: Response)
    ensures r.status == 200 || r == Response(404, Message(NotFoundMessage))
    ensures r.status == 200 <==> Lookup(db, idParam).Some?
  {
    match Lookup(db, idParam)
    case None => Response(404, Message(NotFoundMessage))
    case Some(id) =>
      var e := db.events[id];
      var creator := if e.creator_id in db.users then Some(db.users[e.creator_id]) else None;
      Response(200, EventDetail(Detail(id, e, creator)))
  }

  // ---------------------------------------------------------------------------
  // createEvent

  /** `!nama_acara || !tanggal_mulai || !lokasi`. */
  predicate MissingRequired(body: EventBody) {
    !Truthy(body.nama_acara) || !Truthy(body.tanggal_mulai) || !Truthy(body.lokasi)
  }

  /** `req.user ? req.user.id : null`, then `!userId`: no user and user 0 are both refused. */
  predicate Authorised(user: Option<UserId>) {
    user.Some? && user.value != 0
  }

  /** `req.file ? req.file.filename : 'default_event.jpg'`. */
  function BannerValue(file: Option<Upload.UploadedFile>): Value {
    match file
    case None => Text(DefaultBanner)
    case Some(f) => Raw(f.filename)
  }

  /** The banner as it appears in the template string: `undefined` prints as "undefined". */
  function BannerText(file: Option<Upload.UploadedFile>): string {
    match BannerValue(file)
    case Text(s) => s
    case _ => "undefined"
  }

  /** The inserted row. */
  function NewEvent(body: EventBody, user: UserId, file: Option<Upload.UploadedFile>): Event {
    Event(Raw(body.nama_acara), Raw(body.deskripsi), Raw(body.tanggal_mulai), Raw(body.lokasi),
          Raw(body.kategori), OrZero(body.kuota_maksimal), OrZero(body.harga_tiket),
          OrDash(body.contact_person), BannerValue(file), user)
  }

  /**
   * `${protocol}://${host}/uploads/${bannerImage}`: a URL under the request's
   * own scheme whose path is the banner's name in `/uploads/`.
   */
  function ImageUrl(protocol: string, host: string, banner: string): (u: string)
    ensures |u| == |protocol| + 3 + |host| + 9 + |banner|
    ensures u[..|protocol| + 3] == protocol + "://"
    ensures u[|protocol| + 3..|protocol| + 3 + |host|] == host
    ensures u[|u| - |banner| - 9..] == "/uploads/" + banner
  {
    var u := protocol + "://" + host + "/uploads/" + banner;
    assert u == (protocol + "://") + host + ("/uploads/" + banner);
    u
  }

  /**
   * `createEvent`. The body is validated before the user is looked at, so a
   * request missing a required field gets 400 even without a user.
   */
  function CreateEvent(db: Db, body: EventBody, user: Option<UserId>, file: Option<Upload.UploadedFile>,
                       protocol: string, host: string): (r: (Db, Response))
    ensures MissingRequired(body) ==> r == (db, Response(400, Message(MissingFieldsMessage)))
    ensures !MissingRequired(body) && !Authorised(user) ==> r == (db, Response(401, Message(UnauthorizedMessage)))
    ensures r.1.status == 201 <==> !MissingRequired(body) && Authorised(user)
    ensures r.1.status == 201 ==> r.1.payload.Created? && r.1.payload.event_id == db.nextId
                                  && r.0.events == db.events[db.nextId := NewEvent(body, user.value, file)]
                                  && r.0.nextId == db.nextId + 1
                                  && r.0.bookmarks == db.bookmarks && r.0.users == db.users
  {
    if MissingRequired(body) then (db, Response(400, Message(MissingFieldsMessage)))
    else if !Authorised(user) then (db, Response(401, Message(UnauthorizedMessage)))
    else
      var id := db.nextId;
      var db' := db.(events := db.events[id := NewEvent(body, user.value, file)], nextId := id + 1);
      (db', Response(201, Created(CreatedMessage, id, body.nama_acara.value, ImageUrl(protocol, host, BannerText(file)))))
  }

  // ---------------------------------------------------------------------------
  // updateEvent

  /** The eight columns the `UPDATE` assigns, each bound as given; banner and creator kept. */
  function Updated(prior: Event, body: EventBody): Event {
    Event(Raw(body.nama_acara), Raw(body.deskripsi), Raw(body.tanggal_mulai), Raw(body.lokasi),
          Raw(body.kategori), Raw(body.kuota_maksimal), Raw(body.harga_tiket), Raw(body.contact_person),
          prior.banner_image, prior.creator_id)
  }

  /** `updateEvent`: no validation and no defaults; an uploaded file is ignored. */
  function UpdateEvent(db: Db, idParam: string, body: EventBody): (r: (Db, Response))
    ensures Lookup(db, idParam).None? ==> r == (db, Response(404, Message(NotFoundMessage)))
    ensures Lookup(db, idParam).Some? ==>
              r.1 == Response(200, Message(UpdatedMessage))
              && r.0 == db.(events := db.events[Lookup(db, idParam).value := Updated(db.events[Lookup(db, idParam).value], body)])
  {
    match Lookup(db, idParam)
    case None => (db, Response(404, Message(NotFoundMessage)))
    case Some(id) =>
      (db.(events := db.events[id := Updated(db.events[id], body)]), Response(200, Message(UpdatedMessage)))
  }

  // ---------------------------------------------------------------------------
  // deleteEvent

  /** `deleteEvent`: removes the row; bookmark rows are left as they are. */
  function DeleteEvent(db: Db, idParam: string): (r: (Db, Response))
    ensures Lookup(db, idParam).None? ==> r == (db, Response(404, Message(NotFoundMessage)))
    ensures Lookup(db, idParam).Some? ==>
              r.1 == Response(200, Message(DeletedMessage))
              && r.0 == db.(events := db.events - {Lookup(db, idParam).value})
  {
    match Lookup(db, idParam)
    case None => (db, Response(404, Message(NotFoundMessage)))
    case Some(id) => (db.(events := db.events - {id}), Response(200, Message(DeletedMessage)))
  }

  // ---------------------------------------------------------------------------
  // Properties

  /** Every mutation keeps the store's invariant. */
  lemma MutationsPreserveConsistent(db: Db, idParam: string, body: EventBody, user: Option<UserId>,
                                    file: Option<Upload.UploadedFile>, protocol: string, host: string)
    requires Consistent(db)
    ensures Consistent(CreateEvent(db, body, user, file, protocol, host).0)
    ensures Consistent(UpdateEvent(db, idParam, body).0)
    ensures Consistent(DeleteEvent(db, idParam).0)
  {
  }

  /** A created event reads back with the stored defaults and its creator's name. */
  lemma CreateThenGet(db: Db, body: EventBody, user: Option<UserId>, file: Option<Upload.UploadedFile>,
                      protocol: string, host: string)
    requires Consistent(db) && !MissingRequired(body) && Authorised(user)
    ensures var (db', r) := CreateEvent(db, body, user, file, protocol, host);
            var g := GetEventById(db', NatToString(db.nextId));
            r.status == 201 && g.status == 200 && g.payload.EventDetail?
            && g.payload.detail.event_id == db.nextId
            && g.payload.detail.event.nama_acara == Text(body.nama_acara.value)
            && g.payload.detail.event.tanggal_mulai == Text(body.tanggal_mulai.value)
            && g.payload.detail.event.lokasi == Text(body.lokasi.value)
            && g.payload.detail.event.deskripsi == Raw(body.deskripsi)
            && g.payload.detail.event.kategori == Raw(body.kategori)
            && g.payload.detail.event.contact_person == OrDash(body.contact_person)
            && g.payload.detail.event.kuota_maksimal == OrZero(body.kuota_maksimal)
            && g.payload.detail.event.harga_tiket == OrZero(body.harga_tiket)
            && g.payload.detail.event.banner_image == BannerValue(file)
            && g.payload.detail.event.creator_id == user.value
            && (user.value in db.users ==> g.payload.detail.nama_creator == Some(db.users[user.value]))
  {
    ParseNatToString(db.nextId);
  }

  /** A new event never overwrites an existing one: it takes the next free key. */
  lemma CreateKeepsOthers(db: Db, body: EventBody, user: Option<UserId>, file: Option<Upload.UploadedFile>,
                          protocol: string, host: string, other: EventId)
    requires Consistent(db) && other in db.events
    ensures var db' := CreateEvent(db, body, user, file, protocol, host).0;
            other in db'.events && db'.events[other] == db.events[other]
  {
  }

  /** With a file, memory storage leaves the banner NULL and the URL ends in "undefined". */
  lemma CreateWithFileBanner(db: Db, body: EventBody, user: Option<UserId>, f: Upload.IncomingFile,
                             protocol: string, host: string)
    requires !MissingRequired(body) && Authorised(user)
    ensures var (db', r) := CreateEvent(db, body, user, Some(Upload.Store(f)), protocol, host);
            db'.events[db.nextId].banner_image == Null
            && r.payload.image_url == protocol + "://" + host + "/uploads/undefined"
  {
  }

  /** Without a file the default banner is stored and linked. */
  lemma CreateWithoutFileBanner(db: Db, body: EventBody, user: Option<UserId>, protocol: string, host: string)
    requires !MissingRequired(body) && Authorised(user)
    ensures var (db', r) := CreateEvent(db, body, user, None, protocol, host);
            db'.events[db.nextId].banner_image == Text(DefaultBanner)
            && r.payload.image_url == protocol + "://" + host + "/uploads/default_event.jpg"
  {
  }

  /** After an update, reading the event gives back the sent fields, the old banner and the old creator. */
  lemma UpdateThenGet(db: Db, id: EventId, body: EventBody)
    requires id in db.events
    ensures var db' := UpdateEvent(db, NatToString(id), body).0;
            var g := GetEventById(db', NatToString(id));
            g.status == 200 && g.payload.EventDetail?
            && g.payload.detail.event == Updated(db.events[id], body)
            && g.payload.detail.event.banner_image == db.events[id].banner_image
            && g.payload.detail.event.creator_id == db.events[id].creator_id
            && g.payload.detail.event.nama_acara == Raw(body.nama_acara)
  {
    ParseNatToString(id);
  }

  /** Updating twice with the same body is the same as updating once. */
  lemma UpdateIdempotent(db: Db, idParam: string, body: EventBody)
    ensures var once := UpdateEvent(db, idParam, body);
            UpdateEvent(once.0, idParam, body) == once
  {
    var once := UpdateEvent(db, idParam, body);
    if Lookup(db, idParam).Some? {
      var id := Lookup(db, idParam).value;
      assert Lookup(once.0, idParam) == Some(id);
      assert Updated(Updated(db.events[id], body), body) == Updated(db.events[id], body);
      assert once.0.events[id := Updated(once.0.events[id], body)] == once.0.events;
    }
  }

  /** An update touches one row: every other row, the bookmarks, users and counter stay. */
  lemma UpdateFrame(db: Db, idParam: string, body: EventBody, other: EventId)
    requires other in db.events && KeyOf(idParam) != Some(other)
    ensures var db' := UpdateEvent(db, idParam, body).0;
            other in db'.events && db'.events[other] == db.events[other]
            && db'.bookmarks == db.bookmarks && db'.users == db.users && db'.nextId == db.nextId
  {
  }

  /** After a delete the event is gone for good; every other row stays. */
  lemma DeleteThenGet(db: Db, id: EventId, other: EventId)
    requires id in db.events && other in db.events && other != id
    ensures var (db', r) := DeleteEvent(db, NatToString(id));
            r.status == 200
            && GetEventById(db', NatToString(id)) == Response(404, Message(NotFoundMessage))
            && DeleteEvent(db', NatToString(id)).1.status == 404
            && other in db'.events && db'.events[other] == db.events[other]
  {
    ParseNatToString(id);
  }

  /** A created event can be deleted again, which restores the rows (the counter has moved on). */
  lemma CreateThenDelete(db: Db, body: EventBody, user: Option<UserId>, file: Option<Upload.UploadedFile>,
                         protocol: string, host: string)
    requires Consistent(db) && !MissingRequired(body) && Authorised(user)
    ensures var db1 := CreateEvent(db, body, user, file, protocol, host).0;
            var (db2, r) := DeleteEvent(db1, NatToString(db.nextId));
            r.status == 200 && db2.events == db.events && db2.nextId == db.nextId + 1
  {
    ParseNatToString(db.nextId);
    var db1 := CreateEvent(db, body, user, file, protocol, host).0;
    assert db.nextId !in db.events;
    assert db1.events - {db.nextId} == db.events;
  }
}

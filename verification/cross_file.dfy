/**
 * Properties that span the mobile client and the server: what the admin
 * screens build with the request helpers is what the event router, the
 * upload middleware and the controllers receive and act on.
 */
module CrossFile {
  import opened Wrappers
  import opened Text
  import opened Http
  import opened Timestamps
  import opened Store
  import opened ApiClient
  import opened AdminForms
  import EventQuery
  import EventMutation
  import Upload
  import Routes

  // ---------------------------------------------------------------------------
  // From a client request to the request the router sees

  /**
   * The event router is reached under `API_URL + "/events"`. The server's
   * entry file, which mounts it, is not part of this model.
   */
  const EventsUrl := ApiUrl + "/events"

  /** The path the router matches: the URL with the mount point removed. */
  function RouterPath(url: string): (p: Option<string>)
    ensures p.Some? <==> |EventsUrl| <= |url| && url[..|EventsUrl|] == EventsUrl
    ensures p.Some? ==> url == EventsUrl + p.value
  {
    if |EventsUrl| <= |url| && url[..|EventsUrl|] == EventsUrl then
      assert url == url[..|EventsUrl|] + url[|EventsUrl|..];
      Some(url[|EventsUrl|..])
    else None
  }

  /** `req.body` as the upload middleware fills it from the text parts of a form. */
  function BodyOf(parts: seq<Part>): EventMutation.EventBody {
    EventMutation.EventBody(
      FieldValue(parts, "nama_acara"), FieldValue(parts, "deskripsi"),
      FieldValue(parts, "tanggal_mulai"), FieldValue(parts, "lokasi"),
      FieldValue(parts, "kategori"), FieldValue(parts, "kuota_maksimal"),
      FieldValue(parts, "harga_tiket"), FieldValue(parts, "contact_person"))
  }

  /** The file parts of a form, in order, as the upload middleware meets them; `sizeOf` reads a file's size on the device. */
  function FilesOf(parts: seq<Part>, sizeOf: string -> nat): (fs: seq<Upload.IncomingFile>)
    ensures |fs| <= |parts|
    ensures |fs| == |parts| ==> forall i :: 0 <= i < |parts| ==> parts[i].FilePart?
  {
    if parts == [] then []
    else
      var rest := FilesOf(parts[1..], sizeOf);
      match parts[0]
      case Field(_, _) => rest
      case FilePart(name, uri, fileName, mimeType) =>
        [Upload.IncomingFile(name, fileName, mimeType, sizeOf(uri))] + rest
  }

  /** A query with no filter: the write requests carry no query string. */
  const NoQuery := EventQuery.ListQuery(None, None, None, None, None, None)

  /**
   * The request the router receives for a client request without a query
   * string, or `None` when the URL addresses another router. A JSON body
   * fills none of the event fields.
   */
  function Received(r: FetchRequest, sizeOf: string -> nat, protocol: string, host: string): (q: Option<Routes.Request>)
    ensures q.Some? <==> RouterPath(r.url).Some?
    ensures q.Some? ==> q.value.verb == r.verb && r.url == EventsUrl + q.value.path
                        && q.value.authorization == HeaderValue(r.headers, "Authorization")
  {
    match RouterPath(r.url)
    case None => None
    case Some(path) =>
      var parts := if r.body.Some? && r.body.value.Multipart? then r.body.value.parts else [];
      Some(Routes.Request(r.verb, path, NoQuery, HeaderValue(r.headers, "Authorization"),
                          BodyOf(parts), FilesOf(parts, sizeOf), protocol, host))
  }

  /** The router sees exactly the text after the mount point. */
  lemma RouterPathOf(path: string)
    ensures RouterPath(EventsUrl + path) == Some(path)
  {
    var url := EventsUrl + path;
    assert url[..|EventsUrl|] == EventsUrl;
    assert url[|EventsUrl|..] == path;
  }

  /** A multipart request to `EventsUrl + path` arrives with its form split into body and files. */
  lemma ReceivedForm(verb: Method, path: string, hs: seq<Header>, parts: seq<Part>, sizeOf: string -> nat,
                     protocol: string, host: string)
    ensures Received(FetchRequest(verb, EventsUrl + path, hs, Some(Multipart(parts))), sizeOf, protocol, host)
            == Some(Routes.Request(verb, path, NoQuery, HeaderValue(hs, "Authorization"),
                                   BodyOf(parts), FilesOf(parts, sizeOf), protocol, host))
  {
    RouterPathOf(path);
  }

  /** Text fields in front of the files do not change the files. */
  lemma {:induction false} FilesAfterFields(fields: seq<Part>, tail: seq<Part>, sizeOf: string -> nat)
    requires forall i :: 0 <= i < |fields| ==> fields[i].Field?
    ensures FilesOf(fields + tail, sizeOf) == FilesOf(tail, sizeOf)
    decreases |fields|
  {
    if fields != [] {
      assert (fields + tail)[0] == fields[0];
      assert (fields + tail)[1..] == fields[1..] + tail;
      FilesAfterFields(fields[1..], tail, sizeOf);
    } else {
      assert fields + tail == tail;
    }
  }

  /** The files of a form made of text fields and one trailing file part. */
  lemma FilesOfPayload(fields: seq<Part>, file: seq<Part>, sizeOf: string -> nat)
    requires forall i :: 0 <= i < |fields| ==> fields[i].Field?
    requires |file| <= 1 && (file != [] ==> file[0].FilePart?)
    ensures file == [] ==> FilesOf(fields + file, sizeOf) == []
    ensures file != [] ==> FilesOf(fields + file, sizeOf)
                           == [Upload.IncomingFile(file[0].name, file[0].fileName, file[0].mimeType, sizeOf(file[0].uri))]
  {
    FilesAfterFields(fields, file, sizeOf);
    FilesAfterFields(fields, [], sizeOf);
    if file != [] {
      assert file[1..] == [];
    }
  }

  /** Eight text fields and then one part: the files are those of the last part. */
  lemma FilesOfFieldsThenOne(p: seq<Part>, sizeOf: string -> nat)
    requires |p| == 9 && forall i :: 0 <= i < 8 ==> p[i].Field?
    ensures FilesOf(p, sizeOf) == FilesOf([p[8]], sizeOf)
  {
    var fields := p[..8];
    assert p == fields + [p[8]];
    FilesAfterFields(fields, [p[8]], sizeOf);
  }

  /** A picked image arrives as one file named after the stem and the URI's extension. */
  lemma FilesOfBanner(uri: string, stem: string, sizeOf: string -> nat)
    ensures FilesOf([BannerPart(uri, stem)], sizeOf)
            == [Upload.IncomingFile("banner_image", stem + "." + Extension(uri), MimeOf(uri), sizeOf(uri))]
  {
    assert [BannerPart(uri, stem)][1..] == [];
  }

  // ---------------------------------------------------------------------------
  // The bearer token

  /**
   * The client sends `Bearer <token>` exactly when a token is stored, and the
   * server's soft authentication strips the prefix back to that token: both
   * sides use the same prefix, and no stored token means a guest.
   */
  lemma BearerRoundTrip(token: Option<string>, isFormData: bool, verify: EventQuery.Verifier)
    ensures ApiClient.BearerPrefix == EventQuery.BearerPrefix
    ensures Truthy(token) ==>
              EventQuery.SoftAuth(HeaderValue(Headers(token, isFormData), "Authorization"), verify) == verify(token.value)
    ensures !Truthy(token) ==>
              EventQuery.SoftAuth(HeaderValue(Headers(token, isFormData), "Authorization"), verify).None?
  {
    HeadersExact(token, isFormData);
    if Truthy(token) {
      EventQuery.SoftAuthBearer(token.value, verify);
    }
  }

  // ---------------------------------------------------------------------------
  // The claimed image type against the server's filter

  /**
   * The client names the type after the URI's extension, and the server
   * accepts exactly three types: a picked image passes the filter exactly
   * when its extension is `jpg`, `jpeg` or `png`, in lower case.
   */
  lemma ClientTypeAccepted(uri: string)
    ensures Upload.FileFilter(MimeOf(uri)) <==> Extension(uri) == "jpg" || Extension(uri) == "jpeg" || Extension(uri) == "png"
  {
    var e := Extension(uri);
    ImageTypesSplit();
    SameImageType(e, "jpeg");
    SameImageType(e, "png");
    SameImageType(e, "jpg");
  }

  /** The three accepted types, each as `image/` and its subtype. */
  lemma ImageTypesSplit()
    ensures "image/jpeg" == "image/" + "jpeg" && "image/png" == "image/" + "png" && "image/jpg" == "image/" + "jpg"
  {
  }

  /** Two `image/...` types are equal exactly when their subtypes are. */
  lemma SameImageType(a: string, b: string)
    ensures "image/" + a == "image/" + b <==> a == b
  {
    if "image/" + a == "image/" + b {
      assert a == ("image/" + a)[6..];
      assert b == ("image/" + b)[6..];
    }
  }

  /** Examples (three fixed picker URIs; ClientTypeAccepted is the general statement): only the last dot counts, and an upper-case extension is refused. */
  lemma ClientTypeExamples()
    ensures Upload.FileFilter(MimeOf("file:///data/com.app/cache/IMG_1.png"))
    ensures !Upload.FileFilter(MimeOf("file:///DCIM/photo.JPG"))
    ensures !Upload.FileFilter(MimeOf("file:///DCIM/photo.heic"))
  {
    AfterLastOfSuffix("file:///data/com.app/cache/IMG_1", '.', "png");
    assert "file:///data/com.app/cache/IMG_1.png" == "file:///data/com.app/cache/IMG_1" + ['.'] + "png";
    ClientTypeAccepted("file:///data/com.app/cache/IMG_1.png");
    AfterLastOfSuffix("file:///DCIM/photo", '.', "JPG");
    assert "file:///DCIM/photo.JPG" == "file:///DCIM/photo" + ['.'] + "JPG";
    ClientTypeAccepted("file:///DCIM/photo.JPG");
    AfterLastOfSuffix("file:///DCIM/photo", '.', "heic");
    assert "file:///DCIM/photo.heic" == "file:///DCIM/photo" + ['.'] + "heic";
    ClientTypeAccepted("file:///DCIM/photo.heic");
  }

  // ---------------------------------------------------------------------------
  // Creating an event

  /** The body the create form's fields become on the server, defaults applied by the client. */
  function CreateBody(f: CreateForm): EventMutation.EventBody {
    EventMutation.EventBody(
      Some(f.nama_acara), Some(Or(f.deskripsi, "")), Some(f.tanggal_mulai), Some(f.lokasi),
      Some(Or(f.kategori, "Umum")), Some(Or(f.kuota_maksimal, "0")), Some(Or(f.harga_tiket, "0")),
      Some(Or(f.contact_person, "-")))
  }

  /** The files the create form sends: none, or the picked image as `photo.<ext>`. */
  function CreateFiles(f: CreateForm, sizeOf: string -> nat): seq<Upload.IncomingFile> {
    match f.image
    case None => []
    case Some(img) => [Upload.IncomingFile("banner_image", "photo" + "." + Extension(img.uri), MimeOf(img.uri), sizeOf(img.uri))]
  }

  /** Eight text fields, then the banner when an image was picked. */
  lemma CreatePayloadShape(f: CreateForm)
    ensures |CreatePayload(f)| == if f.image.Some? then 9 else 8
    ensures forall i :: 0 <= i < 8 ==> CreatePayload(f)[i].Field?
    ensures f.image.Some? ==> CreatePayload(f)[8] == BannerPart(f.image.value.uri, "photo")
  {
  }

  /** The create form's parts, read back by name, give the body with the client's defaults. */
  lemma CreateBodyOf(f: CreateForm)
    ensures BodyOf(CreatePayload(f)) == CreateBody(f)
  {
    CreatePayloadFields(f);
  }

  /** The create form's only file is the picked image. */
  lemma CreateFilesOf(f: CreateForm, sizeOf: string -> nat)
    ensures FilesOf(CreatePayload(f), sizeOf) == CreateFiles(f, sizeOf)
  {
    var p := CreatePayload(f);
    CreatePayloadShape(f);
    if f.image.Some? {
      FilesOfFieldsThenOne(p, sizeOf);
      FilesOfBanner(f.image.value.uri, "photo", sizeOf);
    } else {
      FilesAfterFields(p, [], sizeOf);
      assert p + [] == p;
    }
  }

  /** The request the router receives for a saved create form. */
  lemma CreateRequestIs(f: CreateForm, token: Option<string>, sizeOf: string -> nat, protocol: string, host: string)
    requires HandleSave(f, token).Send?
    ensures Received(HandleSave(f, token).request, sizeOf, protocol, host)
            == Some(Routes.Request(POST, "", NoQuery, HeaderValue(Headers(token, true), "Authorization"),
                                   CreateBody(f), CreateFiles(f, sizeOf), protocol, host))
  {
    var parts := CreatePayload(f);
    assert HandleSave(f, token).request == FetchRequest(POST, EventsUrl + "", Headers(token, true), Some(Multipart(parts)));
    ReceivedForm(POST, "", Headers(token, true), parts, sizeOf, protocol, host);
    CreateBodyOf(f);
    CreateFilesOf(f, sizeOf);
  }

  /**
   * A saved create form reaches `POST /` with the stored token, every text
   * field present, and the picked image as the only file; the server's
   * required-field check cannot fail where the client's passed.
   */
  lemma CreateReceived(f: CreateForm, token: Option<string>, sizeOf: string -> nat, protocol: string, host: string)
    requires HandleSave(f, token).Send?
    ensures var q := Received(HandleSave(f, token).request, sizeOf, protocol, host);
            && q.Some? && q.value.verb == POST && q.value.path == ""
            && q.value.authorization == (if Truthy(token) then Some(BearerPrefix + token.value) else None)
            && q.value.body == CreateBody(f)
            && q.value.files == CreateFiles(f, sizeOf)
            && !EventMutation.MissingRequired(q.value.body)
            && Routes.Routed(q.value) == Some(Routes.CreateEvent)
  {
    var q := Routes.Request(POST, "", NoQuery, HeaderValue(Headers(token, true), "Authorization"),
                            CreateBody(f), CreateFiles(f, sizeOf), protocol, host);
    CreateRequestIs(f, token, sizeOf, protocol, host);
    HeadersExact(token, true);
    Routes.WritesRouted(q);
  }

  /** The event the server stores for a saved create form, by the user `user`. */
  function CreatedEvent(f: CreateForm, user: UserId): Event {
    Event(Text(f.nama_acara), Text(Or(f.deskripsi, "")), Text(f.tanggal_mulai), Text(f.lokasi),
          Text(Or(f.kategori, "Umum")), Text(Or(f.kuota_maksimal, "0")), Text(Or(f.harga_tiket, "0")),
          Text(Or(f.contact_person, "-")),
          if f.image.Some? then Null else Text(EventMutation.DefaultBanner), user)
  }

  /**
   * End to end: a saved form from an authenticated user with an acceptable
   * image, or none, is stored under the next id with the client's defaults.
   * Every optional field arrives as text, so the server's own defaults never
   * apply: an empty quota is stored as the text "0", not the number 0.
   */
  lemma CreateStored(db: Db, f: CreateForm, token: Option<string>, sizeOf: string -> nat, protocol: string,
                     host: string, gate: Routes.Gate, verify: EventQuery.Verifier, user: UserId)
    requires HandleSave(f, token).Send?
    requires gate(HeaderValue(Headers(token, true), "Authorization")) == Routes.Pass(user) && user != 0
    requires f.image.Some? ==> Upload.FileFilter(MimeOf(f.image.value.uri))
                               && sizeOf(f.image.value.uri) <= Upload.MaxFileSize
    ensures var q := Received(HandleSave(f, token).request, sizeOf, protocol, host);
            && q.Some?
            && var h := Routes.Handle(db, q.value, gate, verify);
            && h.Some? && h.value.1.status == 201
            && h.value.1.payload.Created? && h.value.1.payload.event_id == db.nextId
            && h.value.0.events == db.events[db.nextId := CreatedEvent(f, user)]
  {
    var r := HandleSave(f, token).request;
    CreateReceived(f, token, sizeOf, protocol, host);
    var q := Received(r, sizeOf, protocol, host).value;
    Upload.SingleCharacterised(q.files);
    Routes.CreateReceivesContext(db, q, gate, verify);
  }

  /** A picked image of a type the server refuses fails the whole save with 500, and nothing is stored. */
  lemma CreateWrongTypeRefused(db: Db, f: CreateForm, token: Option<string>, sizeOf: string -> nat, protocol: string,
                               host: string, gate: Routes.Gate, verify: EventQuery.Verifier)
    requires HandleSave(f, token).Send?
    requires gate(HeaderValue(Headers(token, true), "Authorization")).Pass?
    requires f.image.Some? && !Upload.FileFilter(MimeOf(f.image.value.uri))
    ensures var q := Received(HandleSave(f, token).request, sizeOf, protocol, host);
            && q.Some?
            && Routes.Handle(db, q.value, gate, verify) == Some((db, Response(500, Message(Upload.FormatMessage))))
  {
    CreateReceived(f, token, sizeOf, protocol, host);
    var q := Received(HandleSave(f, token).request, sizeOf, protocol, host).value;
    var file := CreateFiles(f, sizeOf)[0];
    assert q.files == [file];
    Upload.SingleErrorOrder(file);
    Routes.UploadRejectedAfterAuth(db, q, gate, verify);
  }

  // ---------------------------------------------------------------------------
  // Editing and deleting an event

  /** The files the edit form sends: none, or the new image as `updated_photo.<ext>`. */
  function UpdateFiles(f: EditForm, sizeOf: string -> nat): seq<Upload.IncomingFile> {
    if HasNewImage(f) then
      [Upload.IncomingFile("banner_image", "updated_photo" + "." + Extension(f.image.value.uri),
                           MimeOf(f.image.value.uri), sizeOf(f.image.value.uri))]
    else []
  }

  /** Eight text fields, then the banner when a new image was picked. */
  lemma UpdatePayloadShape(f: EditForm)
    ensures |UpdatePayload(f)| == if HasNewImage(f) then 9 else 8
    ensures forall i :: 0 <= i < 8 ==> UpdatePayload(f)[i].Field?
    ensures HasNewImage(f) ==> UpdatePayload(f)[8] == BannerPart(f.image.value.uri, "updated_photo")
  {
  }

  /** The edit form's only file is the new image. */
  lemma UpdateFilesOf(f: EditForm, sizeOf: string -> nat)
    ensures FilesOf(UpdatePayload(f), sizeOf) == UpdateFiles(f, sizeOf)
  {
    var p := UpdatePayload(f);
    UpdatePayloadShape(f);
    if HasNewImage(f) {
      FilesOfFieldsThenOne(p, sizeOf);
      FilesOfBanner(f.image.value.uri, "updated_photo", sizeOf);
    } else {
      FilesAfterFields(p, [], sizeOf);
      assert p + [] == p;
    }
  }

  /** The request the router receives for a save on the edit screen of event `id`. */
  lemma UpdateRequestIs(f: EditForm, id: string, token: Option<string>, sizeOf: string -> nat,
                        protocol: string, host: string)
    ensures Received(HandleUpdate(f, id, token), sizeOf, protocol, host)
            == Some(Routes.Request(PUT, "/" + id, NoQuery, HeaderValue(Headers(token, true), "Authorization"),
                                   BodyOf(UpdatePayload(f)), UpdateFiles(f, sizeOf), protocol, host))
  {
    assert ApiUrl + EventPath(id) == EventsUrl + ("/" + id);
    assert HandleUpdate(f, id, token)
           == FetchRequest(PUT, EventsUrl + ("/" + id), Headers(token, true), Some(Multipart(UpdatePayload(f))));
    ReceivedForm(PUT, "/" + id, Headers(token, true), UpdatePayload(f), sizeOf, protocol, host);
    UpdateFilesOf(f, sizeOf);
  }

  /** The request the router receives for a confirmed delete of event `id`: no body, no files. */
  lemma DeleteRequestIs(id: string, token: Option<string>, sizeOf: string -> nat, protocol: string, host: string)
    ensures Received(HandleDelete(id, true, token).value, sizeOf, protocol, host)
            == Some(Routes.Request(DELETE, "/" + id, NoQuery, HeaderValue(Headers(token, false), "Authorization"),
                                   BodyOf([]), [], protocol, host))
  {
    assert ApiUrl + EventPath(id) == EventsUrl + ("/" + id);
    assert HandleDelete(id, true, token).value == FetchRequest(DELETE, EventsUrl + ("/" + id), Headers(token, false), None);
    RouterPathOf("/" + id);
  }

  /** The screen's `id` parameter reaches the router as the one path segment `/<id>`, for both buttons. */
  lemma EditTargetsReceived(f: EditForm, id: string, token: Option<string>, sizeOf: string -> nat,
                            protocol: string, host: string)
    requires id != [] && '/' !in id
    ensures var u := Received(HandleUpdate(f, id, token), sizeOf, protocol, host);
            var d := Received(HandleDelete(id, true, token).value, sizeOf, protocol, host);
            && u.Some? && d.Some? && u.value.path == d.value.path == "/" + id
            && Routes.FirstMatch(Routes.Table, PUT, u.value.path) == Some((4, id))
            && Routes.FirstMatch(Routes.Table, DELETE, d.value.path) == Some((5, id))
            && u.value.body == BodyOf(UpdatePayload(f))
  {
    UpdateRequestIs(f, id, token, sizeOf, protocol, host);
    DeleteRequestIs(id, token, sizeOf, protocol, host);
    Routes.IdRoundTrip(id, PUT);
    Routes.IdRoundTrip(id, DELETE);
  }

  /**
   * Delete from the edit screen, once confirmed by an authenticated user,
   * runs `deleteEvent` on the screen's id.
   */
  lemma DeleteReachesController(db: Db, id: string, token: Option<string>, sizeOf: string -> nat, protocol: string,
                                host: string, gate: Routes.Gate, verify: EventQuery.Verifier)
    requires id != [] && '/' !in id
    requires gate(HeaderValue(Headers(token, false), "Authorization")).Pass?
    ensures var d := Received(HandleDelete(id, true, token).value, sizeOf, protocol, host);
            d.Some? && Routes.Handle(db, d.value, gate, verify) == Some(EventMutation.DeleteEvent(db, id))
  {
    DeleteRequestIs(id, token, sizeOf, protocol, host);
    Routes.IdRoundTrip(id, DELETE);
    var d := Received(HandleDelete(id, true, token).value, sizeOf, protocol, host).value;
    Routes.DeleteReceivesId(db, d, gate, verify);
  }

  /**
   * Update from the edit screen, by an authenticated user with an acceptable
   * new image or none, runs `updateEvent` on the screen's id with the form's
   * fields; the event keeps its banner even when a new image was sent.
   */
  lemma UpdateReachesController(db: Db, f: EditForm, id: string, token: Option<string>, sizeOf: string -> nat,
                                protocol: string, host: string, gate: Routes.Gate, verify: EventQuery.Verifier)
    requires id != [] && '/' !in id
    requires gate(HeaderValue(Headers(token, true), "Authorization")).Pass?
    requires HasNewImage(f) ==> Upload.FileFilter(MimeOf(f.image.value.uri))
                                && sizeOf(f.image.value.uri) <= Upload.MaxFileSize
    ensures var u := Received(HandleUpdate(f, id, token), sizeOf, protocol, host);
            && u.Some?
            && Routes.Handle(db, u.value, gate, verify) == Some(EventMutation.UpdateEvent(db, id, BodyOf(UpdatePayload(f))))
            && (EventMutation.Lookup(db, id).Some? ==>
                  var k := EventMutation.Lookup(db, id).value;
                  Routes.Handle(db, u.value, gate, verify).value.0.events[k].banner_image == db.events[k].banner_image)
  {
    UpdateRequestIs(f, id, token, sizeOf, protocol, host);
    Routes.IdRoundTrip(id, PUT);
    var u := Received(HandleUpdate(f, id, token), sizeOf, protocol, host).value;
    Upload.SingleCharacterised(u.files);
    Routes.UpdateReceivesId(db, u, gate, verify);
  }

  /** A number's decimal text is a valid `:id` segment. */
  lemma NumeralSegment(key: EventId)
    ensures NatToString(key) != [] && '/' !in NatToString(key)
  {
    var id := NatToString(key);
    assert forall i :: 0 <= i < |id| ==> IsDigit(id[i]) && id[i] != '/';
  }

  /** The edit screen loads a stored event with its text columns as they are and its start back in stored form. */
  lemma LoadedForm(db: Db, key: EventId, t: Timestamp)
    requires key in db.events && Valid(t) && db.events[key].tanggal_mulai == Text(Canonical(t))
    ensures var g := EventMutation.GetEventById(db, NatToString(key));
            && g.payload.EventDetail? && g.payload.detail.event == db.events[key]
            && FetchDetail(g.payload.detail).Some?
            && var f := FetchDetail(g.payload.detail).value;
            && f.tanggal_mulai == Canonical(t) && f.image.None?
            && f.nama_acara == db.events[key].nama_acara && f.lokasi == db.events[key].lokasi
            && f.kategori == db.events[key].kategori
  {
    ParseNatToString(key);
    ParseCanonicalRoundTrip(t);
    NormaliseIso(t);
  }

  /** A save on the edit screen of a stored event, without a new image, overwrites its row with the form's body. */
  lemma SaveStoresBody(db: Db, key: EventId, f: EditForm, token: Option<string>, sizeOf: string -> nat,
                       protocol: string, host: string, gate: Routes.Gate, verify: EventQuery.Verifier)
    requires key in db.events && !HasNewImage(f)
    requires gate(HeaderValue(Headers(token, true), "Authorization")).Pass?
    ensures var u := Received(HandleUpdate(f, NatToString(key), token), sizeOf, protocol, host);
            && u.Some?
            && var h := Routes.Handle(db, u.value, gate, verify);
            && h.Some? && h.value.1 == Response(200, Message(EventMutation.UpdatedMessage))
            && key in h.value.0.events
            && h.value.0.events[key] == EventMutation.Updated(db.events[key], BodyOf(UpdatePayload(f)))
  {
    var id := NatToString(key);
    ParseNatToString(key);
    NumeralSegment(key);
    assert EventMutation.Lookup(db, id) == Some(key);
    UpdateReachesController(db, f, id, token, sizeOf, protocol, host, gate, verify);
  }

  /**
   * Saving the edit screen unchanged keeps what it loaded: an event whose
   * name, place and category are text and whose start is a stored DATETIME
   * comes back with those four columns, its banner and its creator as they
   * were, the start having gone through ISO text and back.
   */
  lemma UnchangedEditKeepsEvent(db: Db, key: EventId, t: Timestamp, token: Option<string>, sizeOf: string -> nat,
                                protocol: string, host: string, gate: Routes.Gate, verify: EventQuery.Verifier)
    requires key in db.events && Valid(t)
    requires var e := db.events[key];
             e.nama_acara.Text? && e.lokasi.Text? && e.kategori.Text? && e.tanggal_mulai == Text(Canonical(t))
    requires gate(HeaderValue(Headers(token, true), "Authorization")).Pass?
    ensures var g := EventMutation.GetEventById(db, NatToString(key));
            && g.payload.EventDetail?
            && FetchDetail(g.payload.detail).Some?
            && var u := Received(HandleUpdate(FetchDetail(g.payload.detail).value, NatToString(key), token),
                                 sizeOf, protocol, host);
            && u.Some?
            && var h := Routes.Handle(db, u.value, gate, verify);
            && h.Some? && h.value.1 == Response(200, Message(EventMutation.UpdatedMessage))
            && key in h.value.0.events
            && var e := db.events[key];
            && var e' := h.value.0.events[key];
            && e'.nama_acara == e.nama_acara && e'.lokasi == e.lokasi && e'.kategori == e.kategori
            && e'.tanggal_mulai == e.tanggal_mulai
            && e'.banner_image == e.banner_image && e'.creator_id == e.creator_id
  {
    LoadedForm(db, key, t);
    var f := FetchDetail(EventMutation.GetEventById(db, NatToString(key)).payload.detail).value;
    SaveStoresBody(db, key, f, token, sizeOf, protocol, host, gate, verify);
    UpdatePayloadFields(f);
    var e := db.events[key];
    var body := BodyOf(UpdatePayload(f));
    assert body.nama_acara == Some(e.nama_acara.s) && body.lokasi == Some(e.lokasi.s);
    assert body.kategori == Some(e.kategori.s) && body.tanggal_mulai == Some(Canonical(t));
    var e' := EventMutation.Updated(e, body);
    assert e'.nama_acara == e.nama_acara && e'.lokasi == e.lokasi && e'.kategori == e.kategori;
    assert e'.tanggal_mulai == e.tanggal_mulai;
  }

  /**
   * An event without a category is loaded with a JSON null, which the form
   * sends as the text "null": saving the screen stores that text.
   */
  lemma EditNullCategoryBecomesText(db: Db, key: EventId, f: EditForm, token: Option<string>, sizeOf: string -> nat,
                                    protocol: string, host: string, gate: Routes.Gate, verify: EventQuery.Verifier)
    requires key in db.events && f.kategori.Null? && !HasNewImage(f)
    requires gate(HeaderValue(Headers(token, true), "Authorization")).Pass?
    ensures var u := Received(HandleUpdate(f, NatToString(key), token), sizeOf, protocol, host);
            && u.Some?
            && var h := Routes.Handle(db, u.value, gate, verify);
            && h.Some? && key in h.value.0.events && h.value.0.events[key].kategori == Text("null")
  {
    SaveStoresBody(db, key, f, token, sizeOf, protocol, host, gate, verify);
    UpdatePayloadFields(f);
  }
}

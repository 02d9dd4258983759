/**
 * The admin screens that write events: the create form (`handleSave`) and
 * the edit form (`fetchDetail`, `handleUpdate`, `handleDelete`), as pure
 * functions from form state to the request the client sends.
 */
module AdminForms {
  import opened Wrappers
  import opened Text
  import opened Timestamps
  import opened Store
  import opened ApiClient

  /** A picked image: the asset's local URI. */
  datatype Image = Image(uri: string)

  /** What a screen does on submit: show an alert and send nothing, or send one request. */
  datatype Submit = Alert(title: string, message: string) | Send(request: FetchRequest)

  /** `s || d` on a string. */
  function Or(s: string, d: string): (r: string)
    ensures s != "" ==> r == s
    ensures s == "" ==> r == d
  {
    if s != "" then s else d
  }

  /** The last part of `uri.split('.')`. */
  function Extension(uri: string): (e: string)
    ensures '.' !in e
  {
    AfterLast(uri, '.')
  }

  /** `image/<ext>`: the type the client claims for a picked image. */
  function MimeOf(uri: string): string {
    "image/" + Extension(uri)
  }

  /** The file entry for a picked image, named `<stem>.<ext>`. */
  function BannerPart(uri: string, stem: string): (p: Part)
    ensures p.FilePart? && p.name == "banner_image" && p.uri == uri
    ensures p.fileName == stem + "." + Extension(uri) && p.mimeType == MimeOf(uri)
  {
    FilePart("banner_image", uri, stem + "." + Extension(uri), MimeOf(uri))
  }

  // ---------------------------------------------------------------------------
  // create.tsx

  datatype CreateForm = CreateForm(
    nama_acara: string,
    tanggal_mulai: string,
    lokasi: string,
    deskripsi: string,
    kategori: string,
    harga_tiket: string,
    kuota_maksimal: string,
    contact_person: string,
    image: Option<Image>)

  const CreateAlertTitle := "Validasi"
  const CreateAlertMessage := "Nama acara, tanggal, dan lokasi wajib diisi."

  /** The form `handleSave` appends, in order; the banner only when an image was picked. */
  function CreatePayload(f: CreateForm): seq<Part> {
    [ Field("nama_acara", f.nama_acara),
      Field("tanggal_mulai", f.tanggal_mulai),
      Field("lokasi", f.lokasi),
      Field("deskripsi", Or(f.deskripsi, "")),
      Field("kategori", Or(f.kategori, "Umum")),
      Field("harga_tiket", Or(f.harga_tiket, "0")),
      Field("kuota_maksimal", Or(f.kuota_maksimal, "0")),
      Field("contact_person", Or(f.contact_person, "-")) ]
    + (match f.image case Some(img) => [BannerPart(img.uri, "photo")] case None => [])
  }

  /** `handleSave`. */
  function HandleSave(f: CreateForm, token: Option<string>): (s: Submit)
    ensures s.Alert? <==> f.nama_acara == "" || f.tanggal_mulai == "" || f.lokasi == ""
    ensures s.Send? ==> s.request == Post("/events", FormData(CreatePayload(f)), token)
  {
    if f.nama_acara == "" || f.tanggal_mulai == "" || f.lokasi == "" then Alert(CreateAlertTitle, CreateAlertMessage)
    else Send(Post("/events", FormData(CreatePayload(f)), token))
  }

  /** The value sent under `name`: the first text field of that name. */
  function FieldValue(parts: seq<Part>, name: string): (r: Option<string>)
    ensures r.Some? ==> exists i :: 0 <= i < |parts| && parts[i] == Field(name, r.value)
  {
    if parts == [] then None
    else if parts[0].Field? && parts[0].name == name then Some(parts[0].value)
    else
      var r := FieldValue(parts[1..], name);
      if r.Some? then
        var i :| 0 <= i < |parts[1..]| && parts[1..][i] == Field(name, r.value);
        assert parts[i + 1] == parts[1..][i];
        r
      else r
  }

  lemma {:induction false} FieldValueAt(parts: seq<Part>, i: nat, name: string, v: string)
    requires i < |parts| && parts[i] == Field(name, v)
    requires forall j :: 0 <= j < i ==> parts[j].name != name
    ensures FieldValue(parts, name) == Some(v)
    decreases i
  {
    if i > 0 {
      FieldValueAt(parts[1..], i - 1, name, v);
    }
  }

  /** The names of the eight text fields both forms send, in order; no two alike. */
  const TextFieldNames: seq<string> := ["nama_acara", "tanggal_mulai", "lokasi", "deskripsi",
                                         "kategori", "harga_tiket", "kuota_maksimal", "contact_person"]

  lemma TextFieldNamesDistinct()
    ensures forall i, j :: 0 <= i < j < 8 ==> TextFieldNames[i] != TextFieldNames[j]
  {
    assert TextFieldNames[6][0] != TextFieldNames[7][0];
  }

  /** Reads back the eight text fields of a payload whose first eight parts carry them in order. */
  lemma EightFields(p: seq<Part>, values: seq<string>)
    requires |p| >= 8 && |values| == 8
    requires forall k :: 0 <= k < 8 ==> p[k] == Field(TextFieldNames[k], values[k])
    ensures forall k :: 0 <= k < 8 ==> FieldValue(p, TextFieldNames[k]) == Some(values[k])
  {
    TextFieldNamesDistinct();
    forall k | 0 <= k < 8 ensures FieldValue(p, TextFieldNames[k]) == Some(values[k]) {
      FieldValueAt(p, k, TextFieldNames[k], values[k]);
    }
  }

  /** The same, by name. */
  lemma EightFieldsNamed(p: seq<Part>, values: seq<string>)
    requires |p| >= 8 && |values| == 8
    requires forall k :: 0 <= k < 8 ==> p[k] == Field(TextFieldNames[k], values[k])
    ensures FieldValue(p, "nama_acara") == Some(values[0]) && FieldValue(p, "tanggal_mulai") == Some(values[1])
    ensures FieldValue(p, "lokasi") == Some(values[2]) && FieldValue(p, "deskripsi") == Some(values[3])
    ensures FieldValue(p, "kategori") == Some(values[4]) && FieldValue(p, "harga_tiket") == Some(values[5])
    ensures FieldValue(p, "kuota_maksimal") == Some(values[6]) && FieldValue(p, "contact_person") == Some(values[7])
  {
    EightFields(p, values);
    assert TextFieldNames[0] == "nama_acara" && TextFieldNames[1] == "tanggal_mulai";
    assert TextFieldNames[2] == "lokasi" && TextFieldNames[3] == "deskripsi";
    assert TextFieldNames[4] == "kategori" && TextFieldNames[5] == "harga_tiket";
    assert TextFieldNames[6] == "kuota_maksimal" && TextFieldNames[7] == "contact_person";
  }

  /** The sent payload carries the required fields verbatim and the optional ones with their defaults. */
  lemma CreatePayloadFields(f: CreateForm)
    ensures var p := CreatePayload(f);
            && FieldValue(p, "nama_acara") == Some(f.nama_acara)
            && FieldValue(p, "tanggal_mulai") == Some(f.tanggal_mulai)
            && FieldValue(p, "lokasi") == Some(f.lokasi)
            && FieldValue(p, "deskripsi") == Some(f.deskripsi)
            && FieldValue(p, "kategori") == Some(if f.kategori == "" then "Umum" else f.kategori)
            && FieldValue(p, "harga_tiket") == Some(if f.harga_tiket == "" then "0" else f.harga_tiket)
            && FieldValue(p, "kuota_maksimal") == Some(if f.kuota_maksimal == "" then "0" else f.kuota_maksimal)
            && FieldValue(p, "contact_person") == Some(if f.contact_person == "" then "-" else f.contact_person)
  {
    var p := CreatePayload(f);
    var values := [f.nama_acara, f.tanggal_mulai, f.lokasi, Or(f.deskripsi, ""), Or(f.kategori, "Umum"),
                   Or(f.harga_tiket, "0"), Or(f.kuota_maksimal, "0"), Or(f.contact_person, "-")];
    EightFieldsNamed(p, values);
  }

  /** The banner is sent exactly when an image was picked, as `photo.<ext>` of type `image/<ext>`. */
  lemma CreatePayloadBanner(f: CreateForm)
    ensures f.image.None? ==> forall i :: 0 <= i < |CreatePayload(f)| ==> CreatePayload(f)[i].Field?
    ensures f.image.Some? ==> |CreatePayload(f)| == 9 && CreatePayload(f)[8] == BannerPart(f.image.value.uri, "photo")
    ensures f.image.Some? ==> CreatePayload(f)[8].fileName == "photo." + Extension(f.image.value.uri)
                              && CreatePayload(f)[8].mimeType == "image/" + Extension(f.image.value.uri)
  {
  }

  // ---------------------------------------------------------------------------
  // edit.tsx

  /**
   * A JSON value of the event detail as the client receives it. The
   * `tanggal_mulai` column reaches the client through a JavaScript `Date`, so
   * a stored DATETIME arrives as its ISO text (the server's zone taken as UTC).
   */
  function Served(v: Value): (r: Value)
    ensures ParseStart(v).Some? ==> r == Text(Iso(ParseStart(v).value))
    ensures ParseStart(v).None? ==> r == v
  {
    match ParseStart(v)
    case Some(t) => Text(Iso(t))
    case None => v
  }

  /** JavaScript truthiness of a JSON value. */
  predicate JsTruthy(v: Value) {
    match v
    case Null => false
    case Text(s) => s != ""
    case Int(n) => n != 0
  }

  /** `String(v)`, which is also what `FormData.append` makes of a value. */
  function JsString(v: Value): (s: string)
    ensures v.Text? ==> s == v.s
    ensures v.Null? ==> s == "null"
  {
    match v
    case Null => "null"
    case Text(s) => s
    case Int(n) => if n >= 0 then NatToString(n) else "-" + NatToString(-n)
  }

  /** The edit form's state. Text inputs start from the loaded JSON values. */
  datatype EditForm = EditForm(
    nama_acara: Value,
    tanggal_mulai: string,
    lokasi: Value,
    deskripsi: Value,
    kategori: Value,
    harga_tiket: string,
    kuota_maksimal: string,
    contact_person: Value,
    image: Option<Image>)

  /**
   * `tanggal_mulai ? tanggal_mulai.replace("T", " ").slice(0, 19) : ""`.
   * `None` when the value is truthy but not a string, where `replace` throws.
   */
  function NormaliseDate(v: Value): (r: Option<string>)
    ensures !JsTruthy(v) ==> r == Some("")
    ensures v.Text? ==> r.Some? && |r.value| <= 19
  {
    if !JsTruthy(v) then Some("")
    else if v.Text? then Some(Take(ReplaceFirst(v.s, "T", " "), 19))
    else None
  }

  /** `fetchDetail`: the loaded form, or `None` when it throws (an alert, then back). */
  function FetchDetail(d: Detail): (r: Option<EditForm>)
    ensures r.Some? ==> r.value.image.None? && r.value.nama_acara == d.event.nama_acara
                        && r.value.kategori == d.event.kategori
                        && r.value.harga_tiket == JsString(d.event.harga_tiket)
                        && r.value.kuota_maksimal == JsString(d.event.kuota_maksimal)
  {
    var e := d.event;
    match NormaliseDate(Served(e.tanggal_mulai))
    case None => None
    case Some(date) =>
      Some(EditForm(e.nama_acara, date, e.lokasi, e.deskripsi, e.kategori,
                    JsString(e.harga_tiket), JsString(e.kuota_maksimal), e.contact_person, None))
  }

  /** `form.image && form.image.uri`. */
  predicate HasNewImage(f: EditForm) {
    f.image.Some? && f.image.value.uri != ""
  }

  /** The form `handleUpdate` appends: raw values except the defaulted four; `kategori` is not defaulted. */
  function UpdatePayload(f: EditForm): seq<Part> {
    [ Field("nama_acara", JsString(f.nama_acara)),
      Field("tanggal_mulai", f.tanggal_mulai),
      Field("lokasi", JsString(f.lokasi)),
      Field("deskripsi", if JsTruthy(f.deskripsi) then JsString(f.deskripsi) else ""),
      Field("kategori", JsString(f.kategori)),
      Field("harga_tiket", Or(f.harga_tiket, "0")),
      Field("kuota_maksimal", Or(f.kuota_maksimal, "0")),
      Field("contact_person", if JsTruthy(f.contact_person) then JsString(f.contact_person) else "-") ]
    + (if HasNewImage(f) then [BannerPart(f.image.value.uri, "updated_photo")] else [])
  }

  function EventPath(id: string): string {
    "/events/" + id
  }

  /** `handleUpdate`: no required-field check, always a PUT. */
  function HandleUpdate(f: EditForm, id: string, token: Option<string>): (r: FetchRequest)
    ensures r.verb == Http.PUT && r.url == ApiUrl + EventPath(id)
    ensures r.body == Some(Multipart(UpdatePayload(f)))
  {
    Put(EventPath(id), FormData(UpdatePayload(f)), token)
  }

  /** `handleDelete`: a DELETE once the confirmation is accepted, nothing when cancelled. */
  function HandleDelete(id: string, confirmed: bool, token: Option<string>): (r: Option<FetchRequest>)
    ensures r.Some? <==> confirmed
    ensures r.Some? ==> r.value.verb == Http.DELETE && r.value.url == ApiUrl + EventPath(id) && r.value.body.None?
  {
    if confirmed then Some(Delete(EventPath(id), token)) else None
  }

  /** The update payload's defaults, and the absent default for `kategori`. */
  lemma UpdatePayloadFields(f: EditForm)
    ensures var p := UpdatePayload(f);
            && FieldValue(p, "nama_acara") == Some(JsString(f.nama_acara))
            && FieldValue(p, "tanggal_mulai") == Some(f.tanggal_mulai)
            && FieldValue(p, "lokasi") == Some(JsString(f.lokasi))
            && FieldValue(p, "deskripsi") == Some(if JsTruthy(f.deskripsi) then JsString(f.deskripsi) else "")
            && FieldValue(p, "kategori") == Some(JsString(f.kategori))
            && FieldValue(p, "harga_tiket") == Some(if f.harga_tiket == "" then "0" else f.harga_tiket)
            && FieldValue(p, "kuota_maksimal") == Some(if f.kuota_maksimal == "" then "0" else f.kuota_maksimal)
            && FieldValue(p, "contact_person") == Some(if JsTruthy(f.contact_person) then JsString(f.contact_person) else "-")
            && (f.kategori.Null? ==> FieldValue(p, "kategori") == Some("null"))
            && (HasNewImage(f) <==> |p| == 9)
            && (HasNewImage(f) ==> p[8] == BannerPart(f.image.value.uri, "updated_photo"))
  {
    var p := UpdatePayload(f);
    var values := [JsString(f.nama_acara), f.tanggal_mulai, JsString(f.lokasi),
                   if JsTruthy(f.deskripsi) then JsString(f.deskripsi) else "", JsString(f.kategori),
                   Or(f.harga_tiket, "0"), Or(f.kuota_maksimal, "0"),
                   if JsTruthy(f.contact_person) then JsString(f.contact_person) else "-"];
    assert p[..8] == seq(8, k requires 0 <= k < 8 => Field(TextFieldNames[k], values[k]));
    EightFieldsNamed(p, values);
  }

  /** Update and delete from the same screen address the same event. */
  lemma UpdateAndDeleteShareTarget(f: EditForm, id: string, token: Option<string>)
    ensures HandleUpdate(f, id, token).url == HandleDelete(id, true, token).value.url
  {
  }

  /** A stored DATETIME survives the trip to the edit form: the ISO text normalises back to the stored text. */
  lemma NormaliseIso(t: Timestamp)
    requires Valid(t)
    ensures NormaliseDate(Text(Iso(t))) == Some(Canonical(t))
    ensures ParseCanonical(NormaliseDate(Text(Iso(t))).value) == Some(t)
  {
    var d := DateText(t.date);
    var rest := ClockText(t) + ".000Z";
    NoLetterInDateText(t.date);
    assert Iso(t) == d + ['T'] + rest;
    ReplaceFirstChar(d, 'T', rest, " ");
    assert ReplaceFirst(Iso(t), "T", " ") == d + " " + rest;
    assert (d + " " + rest)[..19] == d + " " + ClockText(t);
    ParseCanonicalRoundTrip(t);
  }
}

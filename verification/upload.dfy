/**
 * The banner upload middleware: multer with in-memory storage,
 * `upload.single('banner_image')`, a MIME-type whitelist and a 2 MiB limit.
 */
module Upload {
  import opened Wrappers

  /** The only multipart field that may carry a file. */
  const BannerField := "banner_image"

  /** `limits.fileSize`: 1024 * 1024 * 2 bytes. */
  const MaxFileSize: nat := 1024 * 1024 * 2

  const FormatMessage := "Format file tidak didukung! Hanya boleh JPG/PNG."

  /** A file part of a multipart request, as the parser reports it. */
  datatype IncomingFile = IncomingFile(fieldName: string, originalName: string, mimeType: string, size: nat)

  /**
   * `req.file` after a successful upload. Memory storage keeps the bytes in a
   * buffer and never assigns a `filename`, so `filename` is always `None`.
   */
  datatype UploadedFile = UploadedFile(fieldName: string, originalName: string, mimeType: string, size: nat,
                                       filename: Option<string>)

  /** The errors multer passes on to the next error handler. */
  datatype UploadError =
    | UnexpectedField(field: string)
    | UnsupportedFormat
    | FileTooLarge(field: string)

  datatype Outcome = Accepted(file: Option<UploadedFile>) | Rejected(error: UploadError)

  /** The error's `message`. */
  function ErrorMessage(e: UploadError): (m: string)
    ensures e.UnsupportedFormat? <==> m == FormatMessage
  {
    match e
    case UnexpectedField(_) => "Unexpected field"
    case UnsupportedFormat => FormatMessage
    case FileTooLarge(_) => "File too large"
  }

  /** `fileFilter`: exact, case-sensitive comparison against three MIME types. */
  predicate FileFilter(mimeType: string) {
    mimeType == "image/jpeg" || mimeType == "image/png" || mimeType == "image/jpg"
  }

  /** What memory storage makes of an accepted part. */
  function Store(f: IncomingFile): (u: UploadedFile)
    ensures u.filename.None?
    ensures u.fieldName == f.fieldName && u.originalName == f.originalName
    ensures u.mimeType == f.mimeType && u.size == f.size
  {
    UploadedFile(f.fieldName, f.originalName, f.mimeType, f.size, None)
  }

  /**
   * The parts in arrival order. Each part is first checked against the field
   * allowance (one `banner_image`), then against the filter, then against the
   * size limit; the first failure aborts the request.
   */
  function Receive(files: seq<IncomingFile>, taken: Option<UploadedFile>): (r: Outcome)
    ensures files == [] ==> r == Accepted(taken)
    ensures files != [] && (files[0].fieldName != BannerField || taken.Some?) ==> r == Rejected(UnexpectedField(files[0].fieldName))
    ensures r.Accepted? && r.file != taken ==>
              r.file.Some? && r.file.value.fieldName == BannerField && FileFilter(r.file.value.mimeType)
              && r.file.value.size <= MaxFileSize
    decreases |files|
  {
    if files == [] then Accepted(taken)
    else
      var f := files[0];
      if f.fieldName != BannerField || taken.Some? then Rejected(UnexpectedField(f.fieldName))
      else if !FileFilter(f.mimeType) then Rejected(UnsupportedFormat)
      else if f.size > MaxFileSize then Rejected(FileTooLarge(f.fieldName))
      else Receive(files[1..], Some(Store(f)))
  }

  /** `upload.single('banner_image')` on the request's file parts. */
  function Single(files: seq<IncomingFile>): Outcome {
    Receive(files, None)
  }

  /** A part the middleware lets through. */
  predicate Acceptable(f: IncomingFile) {
    f.fieldName == BannerField && FileFilter(f.mimeType) && f.size <= MaxFileSize
  }

  /**
   * The middleware succeeds exactly on requests without a file and on requests
   * with a single acceptable banner, which then becomes `req.file`.
   */
  lemma SingleCharacterised(files: seq<IncomingFile>)
    ensures Single(files).Accepted? <==> files == [] || (|files| == 1 && Acceptable(files[0]))
    ensures files == [] ==> Single(files) == Accepted(None)
    ensures |files| == 1 && Acceptable(files[0]) ==> Single(files) == Accepted(Some(Store(files[0])))
  {
    if files != [] && Acceptable(files[0]) {
      var rest := files[1..];
      if rest != [] {
        assert Receive(rest, Some(Store(files[0]))).Rejected?;
      }
    }
  }

  /** Which check rejects a single part: field first, then type, then size. */
  lemma SingleErrorOrder(f: IncomingFile)
    ensures f.fieldName != BannerField ==> Single([f]) == Rejected(UnexpectedField(f.fieldName))
    ensures f.fieldName == BannerField && !FileFilter(f.mimeType) ==> Single([f]) == Rejected(UnsupportedFormat)
    ensures f.fieldName == BannerField && FileFilter(f.mimeType) && f.size > MaxFileSize
            ==> Single([f]) == Rejected(FileTooLarge(BannerField))
  {
  }

  /** Acceptance of a banner depends on its MIME type and size only, never on its name. */
  lemma AcceptanceIgnoresName(f: IncomingFile, name: string)
    ensures Single([f]) == Accepted(Some(Store(f))) <==> Single([f.(originalName := name)]).Accepted?
  {
    SingleCharacterised([f]);
    SingleCharacterised([f.(originalName := name)]);
  }

  /** The limit is inclusive: a file of exactly 2 MiB passes, one byte more does not. */
  lemma SizeBoundary(f: IncomingFile)
    requires f.fieldName == BannerField && FileFilter(f.mimeType)
    ensures Single([f.(size := 2097152)]).Accepted?
    ensures Single([f.(size := 2097153)]) == Rejected(FileTooLarge(BannerField))
  {
    SingleCharacterised([f.(size := 2097152)]);
  }

  /** Examples (fixed inputs; SingleCharacterised is the general statement): the filter compares case-sensitively and knows no other image type. */
  lemma FilterRejectsVariants()
    ensures !FileFilter("IMAGE/PNG") && !FileFilter("image/JPEG") && !FileFilter("image/gif")
    ensures !FileFilter("image/webp") && !FileFilter("image/jpeg; charset=binary") && !FileFilter("")
  {
    assert "IMAGE/PNG"[0] != "image/png"[0];
  }
}

/** The alert creation form (src/components/AlertForm.tsx): the photo upload
    with type check, size threshold, downscale and rename, and the submit gate.
    The browser's file reader, image decoder and WebP encoder are not modelled:
    the encoder's outcome (the compressed size, or failure) is a parameter, and
    so are the storage upload's outcome, `Date.now()` and the random suffix. */
module AlertFormComponent {
  import opened Types
  import opened Text

  const AllowedImageTypes: seq<string> := ["image/jpeg", "image/png", "image/webp", "image/gif", "image/avif"]
  /** 1 MiB: larger files are recompressed before upload. */
  const CompressionThreshold: nat := 1048576
  const MaxDimension: real := 1080.0

  /** A selected file: its name, MIME type, byte size and pixel size. */
  datatype ImageFile = ImageFile(name: string, mime: string, size: nat, width: real, height: real)

  /** The MIME allow-list check of handleFileChange. */
  predicate IsAllowedImageType(mime: string) { mime in AllowedImageTypes }

  predicate NeedsCompression(f: ImageFile) { f.size > CompressionThreshold }

  function Max(a: real, b: real): real { if a >= b then a else b }

  /** Scaling edge `a` by 1080 / `b`, the other edge being `b`. */
  lemma ScaledEdge(a: real, b: real)
    requires 0.0 <= a && 0.0 < b
    ensures (a * MaxDimension / b) * b == a * MaxDimension
    ensures a * MaxDimension / b >= 0.0
    ensures a <= b ==> a * MaxDimension / b <= MaxDimension
    ensures a < b ==> a * MaxDimension / b < MaxDimension
  {
    var q := a * MaxDimension / b;
    assert q * b == a * MaxDimension;
    if a <= b {
      assert a * MaxDimension <= b * MaxDimension;
    }
    if a < b {
      assert a * MaxDimension < b * MaxDimension;
    }
  }

  /** The downscale in compressImage, over reals: the longer edge is brought to
      1080 when either edge exceeds 1080 (a square image takes the second
      branch), the aspect ratio is kept, and a small image is left alone. */
  function ResizeDims(w: real, h: real): (r: (real, real))
    requires w >= 0.0 && h >= 0.0
    ensures w <= MaxDimension && h <= MaxDimension ==> r == (w, h)
    ensures w > MaxDimension || h > MaxDimension ==>
              Max(r.0, r.1) == MaxDimension && r.0 * h == r.1 * w && (r.0 > r.1 <==> w > h)
    ensures r.0 >= 0.0 && r.1 >= 0.0
  {
    if w > h && w > MaxDimension then
      ScaledEdge(h, w);
      (MaxDimension, (h * MaxDimension) / w)
    else if h > MaxDimension then
      ScaledEdge(w, h);
      ((w * MaxDimension) / h, MaxDimension)
    else (w, h)
  }

  /** compressImage: a WebP file named after the original with its extension
      replaced, at the resized dimensions; `None` when encoding fails. The
      encoder's output size is given, not computed. */
  function Compress(f: ImageFile, encodedSize: Option<nat>): (r: Option<ImageFile>)
    requires f.width >= 0.0 && f.height >= 0.0
    ensures r.Some? <==> encodedSize.Some?
    ensures r.Some? ==> r.value.mime == "image/webp" && r.value.name == WebpName(f.name)
                        && r.value.size == encodedSize.value
                        && (r.value.width, r.value.height) == ResizeDims(f.width, f.height)
  {
    match encodedSize
    case None => None
    case Some(n) =>
      var (w, h) := ResizeDims(f.width, f.height);
      Some(ImageFile(WebpName(f.name), "image/webp", n, w, h))
  }

  /** The name of the file that is uploaded: the renamed WebP file when the
      original is over the threshold, the original name otherwise. */
  function UploadedFileName(f: ImageFile): string {
    if NeedsCompression(f) then WebpName(f.name) else f.name
  }

  /** The storage key handleFileChange uploads under: a fresh name with the
      extension of the file actually uploaded. */
  function UploadKey(f: ImageFile, now: nat, suffix: string): string {
    UploadName(now, suffix, FileExtension(UploadedFileName(f)))
  }

  /** A name with a final extension, once renamed, ends in `.webp`. */
  lemma WebpExtension(name: string)
    requires ExtDot(name).Some?
    ensures FileExtension(WebpName(name)) == "webp"
  {
    var i := ExtDot(name).value;
    ExtDotSpec(name);
    var w := WebpName(name);
    assert w == name[..i] + ".webp";
    var p := name[..i];
    assert w == p + "." + "webp";
    FileExtensionAfterDot(p, "webp");
  }

  /** The storage key handleFileChange uploads under keeps the extension of the
      file actually uploaded: `.webp` for a recompressed file whose name had an
      extension, the original extension otherwise. */
  lemma UploadKeyExtension(f: ImageFile, now: nat, suffix: string)
    ensures var key := UploadKey(f, now, suffix);
      && FileExtension(key) == FileExtension(UploadedFileName(f))
      && (NeedsCompression(f) && ExtDot(f.name).Some? ==> FileExtension(key) == "webp")
      && (!NeedsCompression(f) ==> FileExtension(key) == FileExtension(f.name))
  {
    var uploaded := UploadedFileName(f);
    UploadNameExtension(now, suffix, uploaded);
    if NeedsCompression(f) && ExtDot(f.name).Some? {
      WebpExtension(f.name);
    }
  }

  /** The fields the form validates: all required; the age between 0 and 18. */
  datatype AlertFields = AlertFields(
    child_name: string,
    age: Option<int>,
    last_seen_location: string,
    time_missing: string,
    description: string)

  /** react-hook-form's validation of the alert form: `None` when a required
      field is empty or the age is outside 0..18; otherwise the form data with
      the chosen risk level and the given photo reference. */
  function ValidateAlert(fields: AlertFields, risk: RiskLevel, photo: string): (r: Option<AlertFormData>)
    ensures r.Some? <==> fields.child_name != "" && fields.last_seen_location != "" &&
                         fields.time_missing != "" && fields.description != "" &&
                         fields.age.Some? && 0 <= fields.age.value <= 18
    ensures r.Some? ==> r.value.age == fields.age.value && r.value.risk_level == risk &&
                        r.value.photo_url == photo && r.value.child_name == fields.child_name &&
                        r.value.last_seen_location == fields.last_seen_location &&
                        r.value.time_missing == fields.time_missing &&
                        r.value.description == fields.description &&
                        r.value.last_seen_lat.None? && r.value.last_seen_lng.None?
  {
    if fields.child_name == "" || fields.last_seen_location == "" || fields.time_missing == ""
       || fields.description == "" || fields.age.None? || !(0 <= fields.age.value <= 18)
    then None
    else Some(AlertFormData(fields.child_name, fields.age.value, photo, fields.last_seen_location,
                            None, None, fields.time_missing, fields.description, risk))
  }

  class AlertForm {
    var isSubmitting: bool
    var photoUrl: string
    var uploading: bool
    var progress: nat
    /** The form's `photo_url` value (`setValue('photo_url', ...)`). */
    var formPhotoUrl: string
    /** The form's `risk_level` value. */
    var riskLevel: RiskLevel

    /** A fresh form: no photo, nothing in progress, risk level medium. */
    constructor ()
      ensures !isSubmitting && photoUrl == "" && !uploading && progress == 0
      ensures formPhotoUrl == "" && riskLevel == Medium
    {
      isSubmitting, photoUrl, uploading, progress := false, "", false, 0;
      formPhotoUrl, riskLevel := "", Medium;
    }

    method SelectRiskLevel(k: RiskLevel)
      modifies this
      ensures riskLevel == k
      ensures isSubmitting == old(isSubmitting) && photoUrl == old(photoUrl) && uploading == old(uploading)
      ensures progress == old(progress) && formPhotoUrl == old(formPhotoUrl)
    {
      riskLevel := k;
    }

    /** handleFileChange. Returns the storage key an upload was attempted
        under, `None` when no upload was attempted: no file, a MIME type off the
        allow-list, or a failed compression. Only a successful upload changes
        the photo; every path ends with no upload in progress. */
    method HandleFileChange(file: Option<ImageFile>, encodedSize: Option<nat>, now: nat, suffix: string,
                            uploadFails: bool, publicUrl: string)
      returns (key: Option<string>)
      requires file.Some? ==> file.value.width >= 0.0 && file.value.height >= 0.0
      modifies this
      ensures key.Some? <==> file.Some? && IsAllowedImageType(file.value.mime) &&
                             (NeedsCompression(file.value) ==> encodedSize.Some?)
      ensures key.Some? ==> key.value == UploadKey(file.value, now, suffix)
      ensures photoUrl == (if key.Some? && !uploadFails then publicUrl else old(photoUrl))
      ensures formPhotoUrl == (if key.Some? && !uploadFails then publicUrl else old(formPhotoUrl))
      ensures (file.None? || !IsAllowedImageType(file.value.mime)) ==>
                uploading == old(uploading) && progress == old(progress)
      ensures file.Some? && IsAllowedImageType(file.value.mime) ==> !uploading && progress == 0
      ensures isSubmitting == old(isSubmitting) && riskLevel == old(riskLevel)
    {
      if file.None? || !IsAllowedImageType(file.value.mime) {
        return None;
      }
      var f := file.value;
      uploading, progress := true, 0;
      if NeedsCompression(f) && encodedSize.None? {
        // compressImage rejected: caught, nothing uploaded
        key := None;
      } else {
        // the compressed file (or the original) is uploaded under a fresh key
        key := Some(UploadKey(f, now, suffix));
        progress := 50;
        if !uploadFails {
          photoUrl, formPhotoUrl := publicUrl, publicUrl;
        }
      }
      uploading, progress := false, 0;
    }

    /** onFormSubmit after the form's validation: nothing is submitted while
        the photo is missing; otherwise the data goes out with `photo_url`
        overwritten by the uploaded photo. The busy flag is clear afterwards. */
    method Submit(fields: AlertFields) returns (submitted: Option<AlertFormData>)
      modifies this
      ensures submitted.Some? <==> ValidateAlert(fields, riskLevel, formPhotoUrl).Some? && photoUrl != ""
      ensures submitted.Some? ==>
                submitted.value == ValidateAlert(fields, riskLevel, formPhotoUrl).value.(photo_url := photoUrl)
      ensures submitted.Some? ==> submitted.value.photo_url != ""
      ensures isSubmitting == (old(isSubmitting) && submitted.None?)
      ensures photoUrl == old(photoUrl) && uploading == old(uploading) && progress == old(progress)
      ensures formPhotoUrl == old(formPhotoUrl) && riskLevel == old(riskLevel)
    {
      var data := ValidateAlert(fields, riskLevel, formPhotoUrl);
      if data.None? {
        return None;
      }
      if photoUrl == "" {
        return None;
      }
      isSubmitting := true;
      submitted := Some(data.value.(photo_url := photoUrl));
      isSubmitting := false;
    }
  }
}

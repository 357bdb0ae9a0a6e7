/** The sighting report dialog (src/components/SightingDialog.tsx): the
    mandatory photo, the required location, the data handed to the page's
    `onSubmit`, and the reset on success and on close. Whether `onSubmit`
    throws is a parameter. */
module SightingDialogComponent {
  import opened Types

  /** The form's registered fields; `None` until typed and after `reset()`. */
  datatype SightingFields = SightingFields(
    location: Option<string>,
    description: Option<string>,
    reporter_contact: Option<string>)

  const BlankFields: SightingFields := SightingFields(None, None, None)

  /** react-hook-form's `required` rule on the location. */
  predicate HasLocation(fields: SightingFields) {
    fields.location.Some? && fields.location.value != ""
  }

  /** `{ ...data, alert_id: alertId, photo_url: photoUrl }`: the typed fields,
      the dialog's alert and the photo; no coordinates. */
  function SubmittedData(fields: SightingFields, alertId: string, photoUrl: string): (d: SightingFormData)
    requires HasLocation(fields)
    ensures d.alert_id == alertId && d.photo_url == Some(photoUrl) && d.location == fields.location.value
    ensures d.description == fields.description && d.reporter_contact == fields.reporter_contact
    ensures d.lat.None? && d.lng.None?
  {
    SightingFormData(alertId, fields.location.value, None, None, fields.description,
                     fields.reporter_contact, Some(photoUrl))
  }

  class SightingDialog {
    const alertId: string
    var open: bool
    var isSubmitting: bool
    var showCamera: bool
    var photoUrl: string
    var fields: SightingFields

    /** The dialog as opened for one alert: blank form, no photo. */
    constructor (alertId: string)
      ensures this.alertId == alertId && open && !isSubmitting && !showCamera
      ensures photoUrl == "" && fields == BlankFields
    {
      this.alertId := alertId;
      open, isSubmitting, showCamera, photoUrl, fields := true, false, false, "", BlankFields;
    }

    /** Typing into the form. */
    method Edit(value: SightingFields)
      modifies this
      ensures fields == value
      ensures open == old(open) && isSubmitting == old(isSubmitting) && showCamera == old(showCamera)
      ensures photoUrl == old(photoUrl)
    {
      fields := value;
    }

    /** The capture and retake buttons show the camera. */
    method OpenCamera()
      modifies this
      ensures showCamera
      ensures open == old(open) && isSubmitting == old(isSubmitting) && photoUrl == old(photoUrl)
      ensures fields == old(fields)
    {
      showCamera := true;
    }

    /** handlePhotoCapture: the photo is kept and the camera view hidden. */
    method HandlePhotoCapture(captured: string)
      modifies this
      ensures photoUrl == captured && !showCamera
      ensures open == old(open) && isSubmitting == old(isSubmitting) && fields == old(fields)
    {
      photoUrl := captured;
      showCamera := false;
    }

    /** The camera's cancel: back to the form, photo unchanged. */
    method CancelCamera()
      modifies this
      ensures !showCamera
      ensures open == old(open) && isSubmitting == old(isSubmitting) && photoUrl == old(photoUrl)
      ensures fields == old(fields)
    {
      showCamera := false;
    }

    /** The form's submit (`handleSubmit(onFormSubmit)`): without a location
        the form's validation stops it, and without a photo `onFormSubmit`
        returns at once; in both cases nothing is handed on and nothing
        changes. Otherwise the data goes to `onSubmit` (the result); if that
        completes, the form and photo are cleared and the dialog closes, and if
        it throws they stay. The busy flag is clear afterwards either way. */
    method OnFormSubmit(submitThrows: bool) returns (sent: Option<SightingFormData>)
      modifies this
      ensures sent.Some? <==> HasLocation(old(fields)) && old(photoUrl) != ""
      ensures sent.Some? ==> sent.value == SubmittedData(old(fields), alertId, old(photoUrl))
      ensures sent.Some? && !submitThrows ==> fields == BlankFields && photoUrl == "" && !open
      ensures sent.None? || submitThrows ==>
                fields == old(fields) && photoUrl == old(photoUrl) && open == old(open)
      ensures isSubmitting == (old(isSubmitting) && sent.None?)
      ensures showCamera == old(showCamera)
    {
      if !HasLocation(fields) {
        return None;
      }
      if photoUrl == "" {
        return None;
      }
      isSubmitting := true;
      sent := Some(SubmittedData(fields, alertId, photoUrl));
      if !submitThrows {
        fields := BlankFields;
        photoUrl := "";
        open := false;
      }
      isSubmitting := false;
    }

    /** handleClose: the form reset, the photo cleared, the camera hidden and
        the dialog closed. */
    method HandleClose()
      modifies this
      ensures fields == BlankFields && photoUrl == "" && !showCamera && !open
      ensures isSubmitting == old(isSubmitting)
    {
      fields := BlankFields;
      photoUrl := "";
      showCamera := false;
      open := false;
    }
  }
}

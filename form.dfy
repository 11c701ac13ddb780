/**
 * The submission form (src/components/ProgressForm.jsx): the ten-field form
 * state, the chosen file, and the submit handler that saves the record, then
 * the attachment under the record's id, and reports success or error.
 */
module Form {
  import opened Wrappers
  import opened Json
  import opened Storage

  /** The names of the form's fields, as in its initial state. */
  const FieldNames: seq<string> := ["date", "lecturerName", "lecturerId", "course", "sectionNumber",
                                     "totalStudents", "duration", "contentType", "contentName", "description"]

  /** The form's initial (and reset) state: every field the empty string. */
  function InitialFormData(): (m: Obj)
    ensures forall k :: k in m <==> k in FieldNames
    ensures forall k :: k in m ==> m[k] == Str("")
  {
    map k | k in FieldNames :: Str("")
  }

  /** `submitStatus`: null, 'success' or 'error'. */
  datatype SubmitStatus = NoStatus | Success | Error

  /** What the host supplies to one submission: the clock readings, whether
      each `setItem` is accepted, and the FileReader's data URL (None when
      the read never completes). */
  datatype Host = Host(now: int, recordTime: string, recordAccepted: bool,
                       dataUrl: Option<string>, fileTime: string, fileAccepted: bool)

  class ProgressForm {
    var formData: Obj
    var file: Option<File>
    var isSubmitting: bool
    var submitStatus: SubmitStatus

    /** The component's initial state. */
    constructor ()
      ensures formData == InitialFormData() && file == None
      ensures !isSubmitting && submitStatus == NoStatus
    {
      formData := InitialFormData();
      file := None;
      isSubmitting := false;
      submitStatus := NoStatus;
    }

    /** `handleInputChange`: sets the named field and leaves the others. */
    method HandleInputChange(name: string, value: string)
      modifies this`formData
      ensures formData.Keys == old(formData).Keys + {name}
      ensures formData[name] == Str(value)
      ensures forall k :: k in old(formData) && k != name ==> formData[k] == old(formData)[k]
    {
      formData := formData[name := Str(value)];
    }

    /** `handleFileChange`: takes the first selected file; an empty selection
        keeps the earlier choice. */
    method HandleFileChange(selection: seq<File>)
      modifies this`file
      ensures |selection| > 0 ==> file == Some(selection[0])
      ensures |selection| == 0 ==> file == old(file)
    {
      if |selection| > 0 {
        file := Some(selection[0]);
      }
    }

    /** `handleSubmit`, followed until it finishes or stays suspended on the
        attachment promise. */
    method HandleSubmit(ls: LocalStorage, host: Host)
      modifies this, ls
      // the record write is refused: the catch branch
      ensures !host.recordAccepted ==>
        ls.items == old(ls.items) && submitStatus == Error && !isSubmitting &&
        formData == old(formData) && file == old(file)
      // the record is stored: always first, and under the entry built from the form
      ensures host.recordAccepted ==>
        Slot(ls.items, DataKey) == Slot(old(ls.items), DataKey) + [NewEntry(old(formData), host.now, host.recordTime)]
      // no file selected, or the attachment saved under the record's id: success and reset
      ensures host.recordAccepted && (old(file).None? || (host.dataUrl.Some? && host.fileAccepted)) ==>
        submitStatus == Success && !isSubmitting && formData == InitialFormData() && file == None
      ensures host.recordAccepted && old(file).None? ==>
        ls.items == Appended(old(ls.items), DataKey, NewEntry(old(formData), host.now, host.recordTime))
      ensures host.recordAccepted && old(file).Some? && host.dataUrl.Some? && host.fileAccepted ==>
        ls.items == Appended(Appended(old(ls.items), DataKey, NewEntry(old(formData), host.now, host.recordTime)),
                             FilesKey,
                             Attachment(old(file).value, Get(NewEntry(old(formData), host.now, host.recordTime), "id"),
                                        host.dataUrl.value, host.fileTime))
      // the attachment promise never settles: the handler stays suspended
      ensures host.recordAccepted && old(file).Some? && !(host.dataUrl.Some? && host.fileAccepted) ==>
        ls.items == Appended(old(ls.items), DataKey, NewEntry(old(formData), host.now, host.recordTime)) &&
        isSubmitting && submitStatus == NoStatus && formData == old(formData) && file == old(file)
    {
      isSubmitting := true;
      submitStatus := NoStatus;
      var saved := SaveFormData(ls, formData, host.now, host.recordTime, host.recordAccepted);
      if saved.Threw? {
        submitStatus := Error;
        isSubmitting := false;
        return;
      }
      var entryId := saved.value;
      if file.Some? {
        var p := SaveFile(ls, file.value, entryId, host.dataUrl, host.fileTime, host.fileAccepted);
        if p.Pending? {
          return;
        }
      }
      submitStatus := Success;
      formData := InitialFormData();
      file := None;
      isSubmitting := false;
    }
  }
}

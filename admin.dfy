/**
 * The administrator's view (src/components/AdminPanel.jsx): a snapshot of
 * both store slots, the export of one flat spreadsheet row per submission
 * (left-joined with its first attachment), the bulk clear, and the lookup of
 * a submission's attachment.
 */
module Admin {
  import opened Wrappers
  import opened Json
  import opened Storage

  const NoFileAttached: string := "No file attached"
  const NoFileType: string := "N/A"
  const NoFileToDownload: string := "No file to download"
  const InstructionsPrefix: string := "Go to admin panel \U{2192} Select submission #"
  const InstructionsSuffix: string := " \U{2192} Click Download button"

  /** The 'Download Instructions' text for a submission that has a file. */
  function Instructions(id: Value): (r: string)
    ensures |r| == |InstructionsPrefix| + |JsString(id)| + |InstructionsSuffix|
    ensures r[..|InstructionsPrefix|] == InstructionsPrefix
    ensures r[|r| - |InstructionsSuffix|..] == InstructionsSuffix
    ensures r[|InstructionsPrefix|..|r| - |InstructionsSuffix|] == JsString(id)
  {
    InstructionsPrefix + JsString(id) + InstructionsSuffix
  }

  /** Submissions with different numeric ids get different instructions. */
  lemma InstructionsDistinguishIds(a: int, b: int)
    requires Instructions(Num(a)) == Instructions(Num(b))
    ensures a == b
  {
    NumberStringInjective(a, b);
  }

  /** One row of the spreadsheet; the comments give the column headers. */
  datatype ExportRow = ExportRow(
    submissionId: Value,          // 'Submission ID'
    date: Value,                  // 'Date'
    lecturerName: Value,          // 'Lecturer Name'
    lecturerId: Value,            // 'Lecturer ID'
    course: Value,                // 'Course'
    sectionNumber: Value,         // 'Section Number'
    totalStudents: Value,         // 'Total Students Present'
    duration: Value,              // 'Duration (minutes)'
    contentType: Value,           // 'Content Type'
    contentName: Value,           // 'Content Name/Number'
    description: Value,           // 'Description'
    submittedAt: string,          // 'Submitted At'
    attachedFile: Value,          // 'Attached File'
    fileType: Value,              // 'File Type'
    downloadInstructions: string  // 'Download Instructions'
  )

  /** The row built for one submission. `localeString` stands for
      `new Date(timestamp).toLocaleString()`, which the host provides. */
  function RowFor(sub: Obj, files: seq<Obj>, localeString: Value -> string): (row: ExportRow)
    ensures row.submissionId == Get(sub, "id") && row.date == Get(sub, "date")
    ensures row.lecturerName == Get(sub, "lecturerName") && row.lecturerId == Get(sub, "lecturerId")
    ensures row.course == Get(sub, "course") && row.sectionNumber == Get(sub, "sectionNumber")
    ensures row.totalStudents == Get(sub, "totalStudents") && row.duration == Get(sub, "duration")
    ensures row.contentType == Get(sub, "contentType") && row.contentName == Get(sub, "contentName")
    ensures row.description == Get(sub, "description")
    ensures row.submittedAt == localeString(Get(sub, "timestamp"))
    ensures (forall j :: 0 <= j < |files| ==> Get(files[j], "id") != Get(sub, "id")) ==>
      row.attachedFile == Str(NoFileAttached) && row.fileType == Str(NoFileType) &&
      row.downloadInstructions == NoFileToDownload
    ensures forall k :: IsFirstMatch(files, Get(sub, "id"), k) ==>
      row.attachedFile == Get(files[k], "name") && row.fileType == Get(files[k], "type") &&
      row.downloadInstructions == Instructions(Get(sub, "id"))
  {
    var id := Get(sub, "id");
    var file := FindById(files, id);
    ExportRow(
      id, Get(sub, "date"), Get(sub, "lecturerName"), Get(sub, "lecturerId"),
      Get(sub, "course"), Get(sub, "sectionNumber"), Get(sub, "totalStudents"),
      Get(sub, "duration"), Get(sub, "contentType"), Get(sub, "contentName"),
      Get(sub, "description"), localeString(Get(sub, "timestamp")),
      if file.Some? then Get(file.value, "name") else Str(NoFileAttached),
      if file.Some? then Get(file.value, "type") else Str(NoFileType),
      if file.Some? then Instructions(id) else NoFileToDownload)
  }

  /** `submissions.map(...)`: one row per submission, in submission order. */
  function ExportRows(subs: seq<Obj>, files: seq<Obj>, localeString: Value -> string): (rows: seq<ExportRow>)
    ensures |rows| == |subs|
    ensures forall i :: 0 <= i < |subs| ==> rows[i] == RowFor(subs[i], files, localeString)
    decreases |subs|
  {
    if subs == [] then [] else [RowFor(subs[0], files, localeString)] + ExportRows(subs[1..], files, localeString)
  }

  /** A new submission adds exactly one row, at the end, and changes no other row. */
  lemma ExportRowsAppend(subs: seq<Obj>, s: Obj, files: seq<Obj>, localeString: Value -> string)
    ensures ExportRows(subs + [s], files, localeString) == ExportRows(subs, files, localeString) + [RowFor(s, files, localeString)]
  {
  }

  /** Once a submission's id has no earlier attachment, storing its file makes
      the export show that file; a submission of another id that had no
      attachment keeps its row. */
  lemma FreshAttachmentJoins(sub: Obj, other: Obj, files: seq<Obj>, a: Obj, localeString: Value -> string)
    requires forall j :: 0 <= j < |files| ==> Get(files[j], "id") != Get(sub, "id")
    requires Get(a, "id") == Get(sub, "id")
    ensures RowFor(sub, files + [a], localeString).attachedFile == Get(a, "name")
    ensures RowFor(sub, files + [a], localeString).fileType == Get(a, "type")
    ensures RowFor(sub, files + [a], localeString).downloadInstructions == Instructions(Get(sub, "id"))
    ensures Get(other, "id") != Get(a, "id") && (forall j :: 0 <= j < |files| ==> Get(files[j], "id") != Get(other, "id")) ==>
      RowFor(other, files + [a], localeString) == RowFor(other, files, localeString)
  {
    FindIndexAppend(files, a, Get(sub, "id"));
    FindIndexAppend(files, a, Get(other, "id"));
    assert IsFirstMatch(files + [a], Get(sub, "id"), |files|);
  }

  /** An attachment whose id is already matched does not change that join. */
  lemma AppendKeepsJoin(sub: Obj, files: seq<Obj>, a: Obj, localeString: Value -> string)
    requires exists j :: 0 <= j < |files| && Get(files[j], "id") == Get(sub, "id")
    ensures RowFor(sub, files + [a], localeString) == RowFor(sub, files, localeString)
  {
    var id := Get(sub, "id");
    FindIndexAppend(files, a, id);
    var k := FindIndexById(files, id).value;
    assert IsFirstMatch(files + [a], id, k);
  }

  /** A saved record reaches the export as a new last row whose id is the
      generated one and whose plain columns are the form's own values. */
  lemma SubmissionRoundTrip(subs: seq<Obj>, files: seq<Obj>, formData: Obj, now: int, iso: string,
                            localeString: Value -> string)
    requires "id" !in formData
    ensures |ExportRows(subs + [NewEntry(formData, now, iso)], files, localeString)| == |subs| + 1
    ensures var row := ExportRows(subs + [NewEntry(formData, now, iso)], files, localeString)[|subs|];
      row.submissionId == Num(now) &&
      row.date == Get(formData, "date") && row.lecturerName == Get(formData, "lecturerName") &&
      row.lecturerId == Get(formData, "lecturerId") && row.course == Get(formData, "course") &&
      row.sectionNumber == Get(formData, "sectionNumber") && row.totalStudents == Get(formData, "totalStudents") &&
      row.duration == Get(formData, "duration") && row.contentType == Get(formData, "contentType") &&
      row.contentName == Get(formData, "contentName") && row.description == Get(formData, "description")
  {
    var e := NewEntry(formData, now, iso);
    ExportRowsAppend(subs, e, files, localeString);
    var row := ExportRows(subs + [e], files, localeString)[|subs|];
    assert row == RowFor(e, files, localeString);
    NewEntryKeepsField(formData, now, iso, "date");
    NewEntryKeepsField(formData, now, iso, "lecturerName");
    NewEntryKeepsField(formData, now, iso, "lecturerId");
    NewEntryKeepsField(formData, now, iso, "course");
    NewEntryKeepsField(formData, now, iso, "sectionNumber");
    NewEntryKeepsField(formData, now, iso, "totalStudents");
    NewEntryKeepsField(formData, now, iso, "duration");
    NewEntryKeepsField(formData, now, iso, "contentType");
    NewEntryKeepsField(formData, now, iso, "contentName");
    NewEntryKeepsField(formData, now, iso, "description");
  }

  /** What `exportToExcel` produces: nothing (after the 'No data to export.'
      alert) when there are no submissions, otherwise the rows. */
  datatype ExportOutcome = NoData | Rows(rows: seq<ExportRow>)

  /** The component's state: the two loaded snapshots and the selected submission. */
  class AdminPanel {
    var submissions: seq<Obj>
    var files: seq<Obj>
    var selectedSubmission: Option<Obj>

    /** Mounting: initial state, then `loadData` from the effect. */
    constructor (ls: LocalStorage)
      ensures submissions == Slot(ls.items, DataKey) && files == Slot(ls.items, FilesKey)
      ensures selectedSubmission == None
    {
      selectedSubmission := None;
      submissions := Slot(ls.items, DataKey);
      files := Slot(ls.items, FilesKey);
    }

    /** `loadData`: re-reads both slots. */
    method LoadData(ls: LocalStorage)
      modifies this
      ensures submissions == Slot(ls.items, DataKey) && files == Slot(ls.items, FilesKey)
      ensures selectedSubmission == old(selectedSubmission)
    {
      var data := GetFormData(ls);
      var fs := GetFiles(ls);
      submissions, files := data, fs;
    }

    /** `exportToExcel`, up to handing the rows to the spreadsheet library. */
    function ExportToExcel(localeString: Value -> string): (out: ExportOutcome)
      reads this
      ensures out.NoData? <==> |submissions| == 0
      ensures out.Rows? ==> |out.rows| == |submissions|
      ensures out.Rows? ==> forall i :: 0 <= i < |submissions| ==>
        out.rows[i] == RowFor(submissions[i], files, localeString)
    {
      if |submissions| == 0 then NoData else Rows(ExportRows(submissions, files, localeString))
    }

    /** `clearAllData`: only once confirmed, removes both slots, reloads and
        clears the selection. */
    method ClearAllData(ls: LocalStorage, confirmed: bool)
      modifies this, ls
      ensures confirmed ==> ls.items == Cleared(old(ls.items))
      ensures confirmed ==> submissions == [] && files == [] && selectedSubmission == None
      ensures !confirmed ==> ls.items == old(ls.items) && submissions == old(submissions) &&
                             files == old(files) && selectedSubmission == old(selectedSubmission)
    {
      if confirmed {
        ls.RemoveItem(DataKey);
        ls.RemoveItem(FilesKey);
        LoadData(ls);
        selectedSubmission := None;
      }
    }

    /** `getFileForSubmission`: the first attachment with that id, if any. */
    function GetFileForSubmission(submissionId: Value): (f: Option<Obj>)
      reads this
      ensures f.None? <==> forall j :: 0 <= j < |files| ==> Get(files[j], "id") != submissionId
      ensures forall k :: IsFirstMatch(files, submissionId, k) ==> f == Some(files[k])
    {
      FindById(files, submissionId)
    }
  }

  /** The store once both slots are removed. */
  function Cleared(items: map<string, seq<Obj>>): (r: map<string, seq<Obj>>)
    ensures DataKey !in r && FilesKey !in r
    ensures r.Keys == items.Keys - {DataKey, FilesKey}
    ensures forall k :: k in r ==> r[k] == items[k]
  {
    items - {DataKey, FilesKey}
  }

  /** After a clear both lists read back empty, no other slot is touched,
      and clearing again changes nothing. */
  lemma ClearIdempotent(items: map<string, seq<Obj>>)
    ensures Slot(Cleared(items), DataKey) == [] && Slot(Cleared(items), FilesKey) == []
    ensures forall k :: k in items && k != DataKey && k != FilesKey ==> k in Cleared(items) && Cleared(items)[k] == items[k]
    ensures Cleared(Cleared(items)) == Cleared(items)
  {
  }

  /** The detail view's attachment and the export's 'Attached File' column
      come from the same lookup. */
  lemma DetailAgreesWithExport(p: AdminPanel, sub: Obj, localeString: Value -> string)
    ensures p.GetFileForSubmission(Get(sub, "id")).Some? ==>
      RowFor(sub, p.files, localeString).attachedFile == Get(p.GetFileForSubmission(Get(sub, "id")).value, "name")
    ensures p.GetFileForSubmission(Get(sub, "id")).None? ==>
      RowFor(sub, p.files, localeString).attachedFile == Str(NoFileAttached)
  {
  }
}

/**
 * The client-local persistence layer (src/utils/storage.js): submitted report
 * records live in the localStorage slot "courseProgressData", file attachments
 * in "courseProgressFiles". Every save reads the whole array, appends one
 * object and writes the whole array back.
 */
module Storage {
  import opened Wrappers
  import opened Json

  const DataKey: string := "courseProgressData"
  const FilesKey: string := "courseProgressFiles"

  /** The browser's localStorage, each slot holding the parsed JSON array. */
  class LocalStorage {
    var items: map<string, seq<Obj>>

    constructor (initial: map<string, seq<Obj>>)
      ensures items == initial
    {
      items := initial;
    }

    /** `getItem`: null (None) when the key is absent. */
    method GetItem(key: string) returns (v: Option<seq<Obj>>)
      ensures key in items ==> v == Some(items[key])
      ensures key !in items ==> v == None
    {
      v := if key in items then Some(items[key]) else None;
    }

    /** `setItem`: `accepted` is false when the browser refuses the write
        (quota exceeded); `setItem` then throws and nothing is stored. */
    method SetItem(key: string, value: seq<Obj>, accepted: bool) returns (ok: bool)
      modifies this
      ensures ok == accepted
      ensures accepted ==> items == old(items)[key := value]
      ensures !accepted ==> items == old(items)
    {
      ok := accepted;
      if accepted {
        items := items[key := value];
      }
    }

    /** `removeItem`: removing an absent key is not an error. */
    method RemoveItem(key: string)
      modifies this
      ensures items == old(items) - {key}
    {
      items := items - {key};
    }
  }

  /** What `getFormData`/`getFiles` return for a slot: the stored array, or [] when absent. */
  function Slot(items: map<string, seq<Obj>>, key: string): (r: seq<Obj>)
    ensures key in items ==> r == items[key]
    ensures r != [] ==> key in items
  {
    if key in items then items[key] else []
  }

  /** The store after one read-modify-write append to slot `key`. */
  function Appended(items: map<string, seq<Obj>>, key: string, x: Obj): (r: map<string, seq<Obj>>)
    ensures r.Keys == items.Keys + {key}
    ensures r[key] == Slot(items, key) + [x]
    ensures forall k :: k in items && k != key ==> r[k] == items[k]
  {
    items[key := Slot(items, key) + [x]]
  }

  /** An append adds exactly one element, at the end, to its own slot and
      leaves every other slot as it was. */
  lemma AppendedSlots(items: map<string, seq<Obj>>, key: string, x: Obj, other: string)
    ensures Slot(Appended(items, key, x), key) == Slot(items, key) + [x]
    ensures |Slot(Appended(items, key, x), key)| == |Slot(items, key)| + 1
    ensures Slot(Appended(items, key, x), key)[|Slot(items, key)|] == x
    ensures forall i :: 0 <= i < |Slot(items, key)| ==> Slot(Appended(items, key, x), key)[i] == Slot(items, key)[i]
    ensures other != key ==> (other in Appended(items, key, x) <==> other in items)
    ensures other != key ==> Slot(Appended(items, key, x), other) == Slot(items, other)
  {
  }

  /** The entry `{ id: Date.now(), timestamp: new Date().toISOString(), ...formData }`
      built by `saveFormData`; `now` and `iso` are the clock readings. */
  function NewEntry(formData: Obj, now: int, iso: string): (e: Obj)
    ensures e.Keys == formData.Keys + {"id", "timestamp"}
    ensures forall k :: k in formData ==> e[k] == formData[k]
    ensures "id" !in formData ==> e["id"] == Num(now)
    ensures "timestamp" !in formData ==> e["timestamp"] == Str(iso)
  {
    map["id" := Num(now), "timestamp" := Str(iso)] + formData
  }

  /** Every property other than the generated two is the form's own. */
  lemma NewEntryKeepsField(formData: Obj, now: int, iso: string, k: string)
    requires k != "id" && k != "timestamp"
    ensures Get(NewEntry(formData, now, iso), k) == Get(formData, k)
  {
  }

  /** A host File object, as far as `saveFile` reads it. */
  datatype File = File(name: string, mediaType: string)

  /** The attachment object `saveFile` stores: `dataUrl` is the FileReader's
      result, `iso` the clock reading when the read finished. */
  function Attachment(file: File, entryId: Value, dataUrl: string, iso: string): (a: Obj)
    ensures a.Keys == {"id", "name", "type", "data", "timestamp"}
    ensures Get(a, "id") == entryId && Get(a, "name") == Str(file.name) && Get(a, "type") == Str(file.mediaType)
    ensures Get(a, "data") == Str(dataUrl) && Get(a, "timestamp") == Str(iso)
  {
    map["id" := entryId, "name" := Str(file.name), "type" := Str(file.mediaType),
        "data" := Str(dataUrl), "timestamp" := Str(iso)]
  }

  /** A promise that either resolves with a value or never settles. */
  datatype Settled<+T> = Resolved(value: T) | Pending

  /** `getFormData`. */
  method GetFormData(ls: LocalStorage) returns (data: seq<Obj>)
    ensures DataKey !in ls.items ==> data == []
    ensures DataKey in ls.items ==> data == ls.items[DataKey]
  {
    var stored := ls.GetItem(DataKey);
    data := if stored.Some? then stored.value else [];
  }

  /** `getFiles`. */
  method GetFiles(ls: LocalStorage) returns (files: seq<Obj>)
    ensures FilesKey !in ls.items ==> files == []
    ensures FilesKey in ls.items ==> files == ls.items[FilesKey]
  {
    var stored := ls.GetItem(FilesKey);
    files := if stored.Some? then stored.value else [];
  }

  /** `saveFormData`: appends the new entry to the records slot and returns
      its `id`. When the write is refused the call throws and the store is
      left as it was. */
  method SaveFormData(ls: LocalStorage, formData: Obj, now: int, iso: string, accepted: bool)
    returns (r: Outcome<Value>)
    modifies ls
    ensures accepted ==> ls.items == Appended(old(ls.items), DataKey, NewEntry(formData, now, iso))
    ensures accepted ==> r.Returned? && r.value == Get(Last(Slot(ls.items, DataKey)), "id")
    ensures !accepted ==> r == Threw && ls.items == old(ls.items)
  {
    var existing := GetFormData(ls);
    var entry := NewEntry(formData, now, iso);
    existing := existing + [entry];
    var ok := ls.SetItem(DataKey, existing, accepted);
    if ok {
      r := Returned(entry["id"]);
    } else {
      r := Threw;
    }
  }

  function Last(s: seq<Obj>): Obj
    requires |s| > 0
  {
    s[|s| - 1]
  }

  /** `saveFile`. `dataUrl` is the FileReader's result, None when the read
      never completes; there is no `onerror`, so the promise then never
      settles. A refused write throws inside the `onload` handler, which
      leaves the promise pending as well. */
  method SaveFile(ls: LocalStorage, file: File, entryId: Value, dataUrl: Option<string>, iso: string, accepted: bool)
    returns (p: Settled<Obj>)
    modifies ls
    ensures dataUrl.Some? && accepted ==>
      p == Resolved(Attachment(file, entryId, dataUrl.value, iso)) &&
      ls.items == Appended(old(ls.items), FilesKey, p.value)
    ensures !(dataUrl.Some? && accepted) ==> p == Pending && ls.items == old(ls.items)
    ensures p.Resolved? ==> Get(p.value, "id") == entryId && Get(p.value, "name") == Str(file.name)
                            && Get(p.value, "type") == Str(file.mediaType)
  {
    if dataUrl.None? {
      return Pending;
    }
    var fileData := Attachment(file, entryId, dataUrl.value, iso);
    var existing := GetFiles(ls);
    existing := existing + [fileData];
    var ok := ls.SetItem(FilesKey, existing, accepted);
    p := if ok then Resolved(fileData) else Pending;
  }

  /** `i` is the index `Array.prototype.find(f => f.id === id)` stops at. */
  ghost predicate IsFirstMatch(objs: seq<Obj>, id: Value, i: int)
  {
    0 <= i < |objs| && Get(objs[i], "id") == id &&
    forall j :: 0 <= j < i ==> Get(objs[j], "id") != id
  }

  /** The index of the first object whose `id` equals `id` (strict equality). */
  function FindIndexById(objs: seq<Obj>, id: Value): (r: Option<nat>)
    ensures r.None? <==> forall j :: 0 <= j < |objs| ==> Get(objs[j], "id") != id
    ensures r.Some? ==> IsFirstMatch(objs, id, r.value)
    decreases |objs|
  {
    if objs == [] then None
    else if Get(objs[0], "id") == id then Some(0)
    else
      match FindIndexById(objs[1..], id)
      case None => None
      case Some(k) => Some(k + 1)
  }

  /** `objs.find(f => f.id === id)`: undefined (None) when nothing matches. */
  function FindById(objs: seq<Obj>, id: Value): (r: Option<Obj>)
    ensures r.None? <==> forall j :: 0 <= j < |objs| ==> Get(objs[j], "id") != id
    ensures forall i :: IsFirstMatch(objs, id, i) ==> r == Some(objs[i])
  {
    match FindIndexById(objs, id)
    case None => None
    case Some(k) => FirstMatchUnique(objs, id, k); Some(objs[k])
  }

  /** There is at most one first match. */
  lemma FirstMatchUnique(objs: seq<Obj>, id: Value, k: int)
    requires IsFirstMatch(objs, id, k)
    ensures forall i :: IsFirstMatch(objs, id, i) ==> i == k
  {
  }

  /** Appending an attachment never changes an existing match; it becomes the
      match only for an id that had none. */
  lemma {:induction false} FindIndexAppend(objs: seq<Obj>, x: Obj, id: Value)
    ensures FindIndexById(objs, id).Some? ==> FindIndexById(objs + [x], id) == FindIndexById(objs, id)
    ensures FindIndexById(objs, id).None? && Get(x, "id") == id ==> FindIndexById(objs + [x], id) == Some(|objs|)
    ensures FindIndexById(objs, id).None? && Get(x, "id") != id ==> FindIndexById(objs + [x], id) == None
    decreases |objs|
  {
    if objs != [] {
      assert (objs + [x])[1..] == objs[1..] + [x];
      FindIndexAppend(objs[1..], x, id);
    }
  }

  /** What `downloadFile` hands to the download anchor: its `href` and `download` name. */
  datatype Download = Download(href: Value, fileName: Value)

  /** `downloadFile`: finds the first attachment with the given id and, if
      there is one, downloads its data URL under its stored name; otherwise
      does nothing. Reading the store is all it does to it. */
  method DownloadFile(ls: LocalStorage, fileId: Value) returns (d: Option<Download>)
    ensures d.None? <==> forall j :: 0 <= j < |Slot(ls.items, FilesKey)| ==> Get(Slot(ls.items, FilesKey)[j], "id") != fileId
    ensures forall i :: IsFirstMatch(Slot(ls.items, FilesKey), fileId, i) ==>
      d == Some(Download(Get(Slot(ls.items, FilesKey)[i], "data"), Get(Slot(ls.items, FilesKey)[i], "name")))
  {
    var files := GetFiles(ls);
    assert files == Slot(ls.items, FilesKey);
    var file := FindById(files, fileId);
    if file.Some? {
      d := Some(Download(Get(file.value, "data"), Get(file.value, "name")));
    } else {
      d := None;
    }
  }
}

/**
 * The list logic of the multi-file ImgBB upload page: admitting picked files under the size
 * limit, the per-file status updates the upload callbacks make, removing and clearing items,
 * the counters, and the exported link list.
 */
module ImgbbUpload {

  import opened Wrappers
  import opened JsonValues
  import opened Learn

  /** `MAX_SIZE`: 32 MiB. */
  const MaxSize: nat := 32 * 1024 * 1024

  datatype Status = Queued | Uploading | Processing | Done | Error

  /** The links kept from a successful upload (string values of the response's `data`). */
  datatype UploadResult = UploadResult(
    url: Option<string>,
    displayUrl: Option<string>,
    urlViewer: Option<string>,
    deleteUrl: Option<string>,
    thumbUrl: Option<string>,
    mediumUrl: Option<string>)

  /** One row of the upload list (the `File` object itself is left out; its name and size are kept). */
  datatype FileItem = FileItem(
    id: string,
    name: string,
    size: nat,
    status: Status,
    progress: int,
    result: Option<UploadResult>,
    error: Option<JsonValue>)

  /** A file the user picked, dropped or pasted. */
  datatype PickedFile = PickedFile(name: string, size: nat)

  // ---- addFiles ----

  /** The row a picked file becomes, under the id `crypto.randomUUID()` gave it. */
  function QueuedItem(f: PickedFile, id: string): FileItem {
    FileItem(id, f.name, f.size, Queued, 0, None, None)
  }

  /** The files within the limit, as queued rows, in the order picked (`ids[i]` is file `i`'s fresh id). */
  function Admit(files: seq<PickedFile>, ids: seq<string>): (r: seq<FileItem>)
    requires |ids| == |files|
    ensures |r| <= |files|
    ensures forall x :: x in r ==> x.size <= MaxSize && x.status == Queued && x.progress == 0
  {
    if files == [] then []
    else (if files[0].size <= MaxSize then [QueuedItem(files[0], ids[0])] else []) + Admit(files[1..], ids[1..])
  }

  /** A row is admitted exactly when it is the queued row of a picked file within the limit. */
  lemma {:induction false} AdmitExact(files: seq<PickedFile>, ids: seq<string>, x: FileItem)
    requires |ids| == |files|
    ensures x in Admit(files, ids) <==>
              exists i :: 0 <= i < |files| && files[i].size <= MaxSize && x == QueuedItem(files[i], ids[i])
  {
    if files != [] {
      AdmitExact(files[1..], ids[1..], x);
      if x in Admit(files[1..], ids[1..]) {
        var i :| 0 <= i < |files[1..]| && files[1..][i].size <= MaxSize && x == QueuedItem(files[1..][i], ids[1..][i]);
        assert files[i + 1] == files[1..][i] && ids[i + 1] == ids[1..][i];
      }
      if exists i :: 0 <= i < |files| && files[i].size <= MaxSize && x == QueuedItem(files[i], ids[i]) {
        var i :| 0 <= i < |files| && files[i].size <= MaxSize && x == QueuedItem(files[i], ids[i]);
        if i > 0 {
          assert files[1..][i - 1] == files[i] && ids[1..][i - 1] == ids[i];
        }
      }
    }
  }

  /** Admission keeps the picked order: it distributes over two runs of picked files. */
  lemma {:induction false} AdmitAppend(f1: seq<PickedFile>, i1: seq<string>, f2: seq<PickedFile>, i2: seq<string>)
    requires |i1| == |f1| && |i2| == |f2|
    ensures Admit(f1 + f2, i1 + i2) == Admit(f1, i1) + Admit(f2, i2)
  {
    if f1 == [] {
      assert f1 + f2 == f2 && i1 + i2 == i2;
    } else {
      var f, i := f1 + f2, i1 + i2;
      assert f[0] == f1[0] && f[1..] == f1[1..] + f2;
      assert i[0] == i1[0] && i[1..] == i1[1..] + i2;
      var head := if f1[0].size <= MaxSize then [QueuedItem(f1[0], i1[0])] else [];
      assert Admit(f, i) == head + Admit(f1[1..] + f2, i1[1..] + i2);
      assert Admit(f1, i1) == head + Admit(f1[1..], i1[1..]);
      AdmitAppend(f1[1..], i1[1..], f2, i2);
    }
  }

  /** `files.filter(f => f.size > MAX_SIZE).length`. */
  function OverLimitCount(files: seq<PickedFile>): (n: nat)
    ensures n <= |files|
  {
    if files == [] then 0 else (if files[0].size > MaxSize then 1 else 0) + OverLimitCount(files[1..])
  }

  /** Every picked file is either admitted or counted as skipped, never both. */
  lemma {:induction false} AdmitCount(files: seq<PickedFile>, ids: seq<string>)
    requires |ids| == |files|
    ensures |Admit(files, ids)| + OverLimitCount(files) == |files|
  {
    if files != [] {
      AdmitCount(files[1..], ids[1..]);
    }
  }

  /** Files within the limit are all admitted, in order, each under its own id. */
  lemma {:induction false} AdmitWithinLimit(files: seq<PickedFile>, ids: seq<string>)
    requires |ids| == |files|
    requires forall i :: 0 <= i < |files| ==> files[i].size <= MaxSize
    ensures |Admit(files, ids)| == |files|
    ensures forall i :: 0 <= i < |files| ==> Admit(files, ids)[i] == QueuedItem(files[i], ids[i])
  {
    if files != [] {
      AdmitWithinLimit(files[1..], ids[1..]);
    }
  }

  /** `Có ${n} file vượt 32MB và đã bị bỏ qua.` ("n files over 32MB were skipped."). */
  function SkippedMessage(n: nat): (m: string)
    ensures var d := NatToString(n);
            |m| > 3 + |d| && m[..3] == "C\U{00F3} " && m[3..3 + |d|] == d && m[3 + |d|] == ' '
  {
    "C\U{00F3} " + NatToString(n) + " file v\U{01B0}\U{1EE3}t 32MB v\U{00E0} \U{0111}\U{00E3} b\U{1ECB} b\U{1ECF} qua."
  }

  // ---- Per-id updates from the upload callbacks ----

  /** What a callback does to the row whose id matches. */
  datatype Change =
    | SetUploading(pct: int)   // upload progress: `{ ...x, progress: pct, status: "uploading" }`
    | SetProcessing            // headers received: `{ ...x, status: "processing", progress: 100 }`
    | Replace(updated: FileItem)  // load or network error: the row becomes `updated`

  function Apply(c: Change, x: FileItem): FileItem {
    match c
    case SetUploading(pct) => x.(progress := pct, status := Uploading)
    case SetProcessing => x.(status := Processing, progress := 100)
    case Replace(updated) => updated
  }

  /** `prev.map(x => x.id === id ? change(x) : x)`. */
  function UpdateById(items: seq<FileItem>, id: string, c: Change): (r: seq<FileItem>)
    ensures |r| == |items|
    ensures forall i :: 0 <= i < |items| && items[i].id != id ==> r[i] == items[i]
    ensures forall i :: 0 <= i < |items| && items[i].id == id ==> r[i] == Apply(c, items[i])
  {
    if items == [] then []
    else [if items[0].id == id then Apply(c, items[0]) else items[0]] + UpdateById(items[1..], id, c)
  }

  /** An update for an id no row carries (a removed row) changes nothing. */
  lemma UpdateUnknownId(items: seq<FileItem>, id: string, c: Change)
    requires forall i :: 0 <= i < |items| ==> items[i].id != id
    ensures UpdateById(items, id, c) == items
  {
  }

  /** The parsed response of a finished upload, or the exception parsing or reading it threw. */
  datatype LoadBody = Parsed(resp: JsonValue) | Threw(message: Option<string>)

  /** `xhr.status` is 2xx and `resp?.success` is truthy. */
  predicate Succeeded(httpStatus: int, resp: JsonValue) {
    200 <= httpStatus < 300 && resp.JObj? && "success" in resp.fields && Truthy(resp.fields["success"])
  }

  /** `d.name` for the response's `data`, when it is a string. */
  function Link(d: JsonValue, name: string): Option<string> {
    if d.JObj? && name in d.fields && d.fields[name].JStr? then Some(d.fields[name].str) else None
  }

  /** The links of a successful upload. */
  function ResultOf(d: JsonValue): UploadResult {
    UploadResult(Link(d, "url"), Link(d, "display_url"), Link(d, "url_viewer"),
                 Link(d, "delete_url"), Link(d, "thumb_url"), Link(d, "medium_url"))
  }

  /** `resp?.error || "Upload failed"`. */
  function FailureText(resp: JsonValue): (e: JsonValue)
    ensures Truthy(e)
    ensures e == JStr("Upload failed") || (resp.JObj? && "error" in resp.fields && e == resp.fields["error"])
    ensures resp.JObj? && "error" in resp.fields && Truthy(resp.fields["error"]) ==> e == resp.fields["error"]
  {
    if resp.JObj? && "error" in resp.fields && Truthy(resp.fields["error"]) then resp.fields["error"]
    else JStr("Upload failed")
  }

  /** The message of the `TypeError` thrown by `d.url` when `data` is missing or `null`. */
  function MissingDataMessage(resp: JsonValue): string {
    if resp.JObj? && "data" in resp.fields && resp.fields["data"] == JNull then "Cannot read properties of null (reading 'url')"
    else "Cannot read properties of undefined (reading 'url')"
  }

  /**
   * `xhr.onload`: the row `item` (as it was when its upload started) settles as done with its
   * links, or as an error with the response's error, "Upload failed", or the exception message.
   */
  function Settled(item: FileItem, httpStatus: int, body: LoadBody): (r: FileItem)
    ensures r.id == item.id && r.name == item.name && r.size == item.size
    ensures r.status == Done || r.status == Error
    ensures r.status == Done <==>
              && body.Parsed? && Succeeded(httpStatus, body.resp)
              && "data" in body.resp.fields && body.resp.fields["data"] != JNull
    ensures r.status == Done ==> r.progress == 100 && r.result == Some(ResultOf(body.resp.fields["data"]))
    ensures r.status == Done ==> r.error == item.error
    ensures r.status == Error ==> r.error.Some? && r.progress == item.progress && r.result == item.result
    ensures body.Parsed? && Succeeded(httpStatus, body.resp) && r.status == Error ==>
              r.error == Some(JStr(MissingDataMessage(body.resp)))
    ensures body.Parsed? && !Succeeded(httpStatus, body.resp) ==> r.error == Some(FailureText(body.resp))
    ensures body.Threw? ==> r.error == Some(JStr(body.message.GetOr("Parse error")))
  {
    match body
    case Threw(message) => item.(status := Error, error := Some(JStr(message.GetOr("Parse error"))))
    case Parsed(resp) =>
      if Succeeded(httpStatus, resp) then
        if "data" in resp.fields && resp.fields["data"] != JNull then
          item.(status := Done, progress := 100, result := Some(ResultOf(resp.fields["data"])))
        else
          item.(status := Error, error := Some(JStr(MissingDataMessage(resp))))
      else
        item.(status := Error, error := Some(FailureText(resp)))
  }

  /** `xhr.onerror`. */
  function NetworkFailed(item: FileItem): (r: FileItem)
    ensures r.id == item.id && r.status == Error && r.error == Some(JStr("Network error"))
    ensures r.name == item.name && r.size == item.size && r.progress == item.progress && r.result == item.result
  {
    item.(status := Error, error := Some(JStr("Network error")))
  }

  // ---- Removing, clearing, counting ----

  /** `prev.filter(x => x.id !== id)`. */
  function WithoutItem(items: seq<FileItem>, id: string): (r: seq<FileItem>)
    ensures |r| <= |items|
    ensures forall x :: x in r <==> x in items && x.id != id
  {
    if items == [] then []
    else (if items[0].id != id then [items[0]] else []) + WithoutItem(items[1..], id)
  }

  /** Removal keeps the other rows in order: it distributes over two runs of rows. */
  lemma {:induction false} WithoutItemAppend(a: seq<FileItem>, b: seq<FileItem>, id: string)
    ensures WithoutItem(a + b, id) == WithoutItem(a, id) + WithoutItem(b, id)
  {
    if a == [] {
      assert a + b == b;
    } else {
      var ab := a + b;
      assert ab[0] == a[0] && ab[1..] == a[1..] + b;
      WithoutItemAppend(a[1..], b, id);
    }
  }

  /** Removing an id no row carries changes nothing. */
  lemma {:induction false} WithoutUnknownItem(items: seq<FileItem>, id: string)
    requires forall i :: 0 <= i < |items| ==> items[i].id != id
    ensures WithoutItem(items, id) == items
  {
    if items != [] {
      WithoutUnknownItem(items[1..], id);
    }
  }

  /** `prev.filter(x => x.status !== "done")`. */
  function WithoutDone(items: seq<FileItem>): (r: seq<FileItem>)
    ensures |r| <= |items|
    ensures forall x :: x in r <==> x in items && x.status != Done
  {
    if items == [] then []
    else (if items[0].status != Done then [items[0]] else []) + WithoutDone(items[1..])
  }

  /** Clearing the done rows keeps the other rows in order: it distributes over two runs of rows. */
  lemma {:induction false} WithoutDoneAppend(a: seq<FileItem>, b: seq<FileItem>)
    ensures WithoutDone(a + b) == WithoutDone(a) + WithoutDone(b)
  {
    if a == [] {
      assert a + b == b;
    } else {
      var ab := a + b;
      assert ab[0] == a[0] && ab[1..] == a[1..] + b;
      WithoutDoneAppend(a[1..], b);
    }
  }

  /** The number of rows in a status (`queuedCount`, `doneCount`). */
  function CountStatus(items: seq<FileItem>, s: Status): (n: nat)
    ensures n <= |items|
  {
    if items == [] then 0 else (if items[0].status == s then 1 else 0) + CountStatus(items[1..], s)
  }

  lemma {:induction false} CountStatusAppend(a: seq<FileItem>, b: seq<FileItem>, s: Status)
    ensures CountStatus(a + b, s) == CountStatus(a, s) + CountStatus(b, s)
  {
    if a == [] {
      assert a + b == b;
    } else {
      var ab := a + b;
      assert ab[0] == a[0] && ab[1..] == a[1..] + b;
      CountStatusAppend(a[1..], b, s);
    }
  }

  /** One row counts once under its own status and not under any other. */
  lemma CountStatusSingleton(x: FileItem, s: Status)
    ensures CountStatus([x], s) == if x.status == s then 1 else 0
  {
    assert [x][1..] == [];
  }

  function QueuedCount(items: seq<FileItem>): nat {
    CountStatus(items, Queued)
  }

  function DoneCount(items: seq<FileItem>): nat {
    CountStatus(items, Done)
  }

  /** Clearing the done rows removes exactly `doneCount` rows and leaves no done row. */
  lemma {:induction false} ClearDoneCounts(items: seq<FileItem>)
    ensures |WithoutDone(items)| + DoneCount(items) == |items|
    ensures DoneCount(WithoutDone(items)) == 0
    ensures QueuedCount(WithoutDone(items)) == QueuedCount(items)
  {
    if items != [] {
      ClearDoneCounts(items[1..]);
      var head := if items[0].status != Done then [items[0]] else [];
      assert WithoutDone(items) == head + WithoutDone(items[1..]);
      CountStatusAppend(head, WithoutDone(items[1..]), Done);
      CountStatusAppend(head, WithoutDone(items[1..]), Queued);
    }
  }

  // ---- exportLinks ----

  /** Which link a copy-all button picks. */
  datatype LinkKind = DirectUrl | DisplayUrl | ViewerUrl | DeleteUrl

  /** The picker `i => i.result?.<link>`. */
  function Pick(x: FileItem, kind: LinkKind): Option<string> {
    if x.result.None? then None
    else
      match kind
      case DirectUrl => x.result.value.url
      case DisplayUrl => x.result.value.displayUrl
      case ViewerUrl => x.result.value.urlViewer
      case DeleteUrl => x.result.value.deleteUrl
  }

  /** `items.filter(i => i.status === "done").map(picker).filter(Boolean)`. */
  function ExportLines(items: seq<FileItem>, kind: LinkKind): (lines: seq<string>)
    ensures |lines| <= |items|
    ensures forall s :: s in lines ==> s != ""
  {
    if items == [] then []
    else
      var x := items[0];
      (if x.status == Done && Pick(x, kind).Some? && Pick(x, kind).value != "" then [Pick(x, kind).value] else [])
      + ExportLines(items[1..], kind)
  }

  /** A line is exported exactly when some done row's picked link is that non-empty string. */
  lemma {:induction false} ExportLinesExact(items: seq<FileItem>, kind: LinkKind, s: string)
    ensures s in ExportLines(items, kind) <==>
              exists i :: 0 <= i < |items| && items[i].status == Done && Pick(items[i], kind) == Some(s) && s != ""
  {
    if items != [] {
      ExportLinesExact(items[1..], kind, s);
      if s in ExportLines(items[1..], kind) {
        var i :| 0 <= i < |items[1..]| && items[1..][i].status == Done && Pick(items[1..][i], kind) == Some(s) && s != "";
        assert items[i + 1] == items[1..][i];
      }
      if exists i :: 0 <= i < |items| && items[i].status == Done && Pick(items[i], kind) == Some(s) && s != "" {
        var i :| 0 <= i < |items| && items[i].status == Done && Pick(items[i], kind) == Some(s) && s != "";
        if i > 0 {
          assert items[1..][i - 1] == items[i];
        }
      }
    }
  }

  /** Export follows list order: the lines of two runs of rows are concatenated. */
  lemma {:induction false} ExportLinesAppend(a: seq<FileItem>, b: seq<FileItem>, kind: LinkKind)
    ensures ExportLines(a + b, kind) == ExportLines(a, kind) + ExportLines(b, kind)
  {
    if a == [] {
      assert a + b == b;
    } else {
      var ab := a + b;
      assert ab[0] == a[0] && ab[1..] == a[1..] + b;
      ExportLinesAppend(a[1..], b, kind);
    }
  }

  /** `lines.join("\n")`. */
  function Join(lines: seq<string>): (text: string)
    ensures lines == [] ==> text == ""
    ensures lines != [] ==> |text| >= |lines[0]| && text[..|lines[0]|] == lines[0]
    ensures |lines| > 1 ==> |text| > |lines[0]| && text[|lines[0]|] == '\n'
  {
    if lines == [] then ""
    else if |lines| == 1 then lines[0]
    else lines[0] + "\n" + Join(lines[1..])
  }

  /** Splitting text at each newline. */
  function Split(s: string): (r: seq<string>)
    ensures |r| >= 1
  {
    if s == [] then [""]
    else if s[0] == '\n' then [""] + Split(s[1..])
    else
      var rest := Split(s[1..]);
      [[s[0]] + rest[0]] + rest[1..]
  }

  /** A line without a newline splits to itself. */
  lemma {:induction false} SplitLine(line: string)
    requires '\n' !in line
    ensures Split(line) == [line]
  {
    if line != [] {
      assert '\n' !in line[1..] by {
        forall k | 0 <= k < |line[1..]| ensures line[1..][k] != '\n' { assert line[1..][k] == line[k + 1]; }
      }
      SplitLine(line[1..]);
      assert [line[0]] + line[1..] == line;
    }
  }

  /** A line without a newline, a newline, then more text: the line comes off first. */
  lemma {:induction false} SplitAfterLine(line: string, t: string)
    requires '\n' !in line
    ensures Split(line + "\n" + t) == [line] + Split(t)
  {
    if line == [] {
      assert line + "\n" + t == ['\n'] + t;
      assert (['\n'] + t)[1..] == t;
    } else {
      var s := line + "\n" + t;
      assert s[0] == line[0];
      assert s[1..] == line[1..] + "\n" + t;
      assert '\n' !in line[1..] by {
        forall k | 0 <= k < |line[1..]| ensures line[1..][k] != '\n' { assert line[1..][k] == line[k + 1]; }
      }
      SplitAfterLine(line[1..], t);
      assert [line[0]] + line[1..] == line;
    }
  }

  /** The exported text splits back into the exported lines: no link is merged or lost. */
  lemma {:induction false} SplitJoin(lines: seq<string>)
    requires |lines| >= 1
    requires forall i :: 0 <= i < |lines| ==> '\n' !in lines[i]
    ensures Split(Join(lines)) == lines
  {
    if |lines| == 1 {
      SplitLine(lines[0]);
    } else {
      SplitJoin(lines[1..]);
      SplitAfterLine(lines[0], Join(lines[1..]));
    }
  }

  /** `exportLinks(picker)`: the text it hands to the clipboard. */
  function ExportLinks(items: seq<FileItem>, kind: LinkKind): (text: string)
    ensures ExportLines(items, kind) == [] ==> text == ""
    ensures ExportLines(items, kind) != [] && (forall s :: s in ExportLines(items, kind) ==> '\n' !in s) ==>
              Split(text) == ExportLines(items, kind)
  {
    var lines := ExportLines(items, kind);
    if lines != [] && (forall s :: s in lines ==> '\n' !in s) then
      SplitJoin(lines);
      Join(lines)
    else
      Join(lines)
  }

  /** The page's upload list and status message. */
  class ImgbbUploadPage {
    var items: seq<FileItem>
    var msg: string

    constructor ()
      ensures items == [] && msg == ""
    {
      items, msg := [], "";
    }

    /** `addFiles`: appends the files within the limit and reports how many were skipped. */
    method AddFiles(files: seq<PickedFile>, ids: seq<string>)
      requires |ids| == |files|
      modifies this
      ensures items == old(items) + Admit(files, ids)
      ensures OverLimitCount(files) > 0 ==> msg == SkippedMessage(OverLimitCount(files))
      ensures OverLimitCount(files) == 0 ==> msg == old(msg)
    {
      var admitted := Admit(files, ids);
      var overLimit := OverLimitCount(files);
      if overLimit > 0 {
        msg := SkippedMessage(overLimit);
      }
      items := items + admitted;
    }

    /** `xhr.upload.onprogress` with the computed percentage. */
    method OnProgress(id: string, pct: int)
      modifies this
      ensures items == UpdateById(old(items), id, SetUploading(pct)) && msg == old(msg)
    {
      items := UpdateById(items, id, SetUploading(pct));
    }

    /** `xhr.onreadystatechange` at ready state 2 (headers received). */
    method OnHeadersReceived(id: string)
      modifies this
      ensures items == UpdateById(old(items), id, SetProcessing) && msg == old(msg)
    {
      items := UpdateById(items, id, SetProcessing);
    }

    /** `xhr.onload` for the upload of `item`. */
    method OnLoad(item: FileItem, httpStatus: int, body: LoadBody)
      modifies this
      ensures items == UpdateById(old(items), item.id, Replace(Settled(item, httpStatus, body))) && msg == old(msg)
    {
      items := UpdateById(items, item.id, Replace(Settled(item, httpStatus, body)));
    }

    /** `xhr.onerror` for the upload of `item`. */
    method OnNetworkError(item: FileItem)
      modifies this
      ensures items == UpdateById(old(items), item.id, Replace(NetworkFailed(item))) && msg == old(msg)
    {
      items := UpdateById(items, item.id, Replace(NetworkFailed(item)));
    }

    /** `removeItem`. */
    method RemoveItem(id: string)
      modifies this
      ensures items == WithoutItem(old(items), id) && msg == old(msg)
    {
      items := WithoutItem(items, id);
    }

    /** `clearAll`. */
    method ClearAll()
      modifies this
      ensures items == [] && msg == old(msg)
    {
      items := [];
    }

    /** `clearDone`. */
    method ClearDone()
      modifies this
      ensures items == WithoutDone(old(items)) && msg == old(msg)
      ensures DoneCount(items) == 0 && |items| == |old(items)| - DoneCount(old(items))
    {
      ClearDoneCounts(items);
      items := WithoutDone(items);
    }
  }
}

/**
 * The flashcard index page: its own copy of the item validator, the JSON import it sends to
 * save-day, the open/closed state of each listed day, and the totals it shows.
 */
module FlashCard {

  import opened Wrappers
  import opened JsonValues
  import opened Learn
  import opened Store

  /** The page's own copy of `toVocabItem`, written out as the page has it. */
  function PageToVocabItem(it: JsonValue): (r: Option<VocabItem>)
    ensures r.Some? <==> HasWord(it)
    ensures r.Some? ==> ValidItem(r.value) && JStr(r.value.word) == it.fields["word"]
  {
    if !it.JObj? then None
    else
      var obj := it.fields;
      var word := if "word" in obj && obj["word"].JStr? then obj["word"].str else "";
      if word == "" then None
      else
        Some(VocabItem(
          word,
          StringField(obj, "pronunciation"),
          StringField(obj, "meaningEn"),
          StringField(obj, "meaningVi"),
          if "synonyms" in obj && obj["synonyms"].JArr? then Some(StringsOnly(obj["synonyms"].elems)) else None,
          StringField(obj, "example")))
  }

  /** The page's validator applies the same acceptance and field rules as the library's. */
  lemma PageValidatorAgrees(it: JsonValue)
    ensures PageToVocabItem(it) == ToVocabItem(it)
  {
  }

  /** `raw.map(toVocabItem).filter(x => x !== null)` with the page's validator. */
  function PageAccepted(xs: seq<JsonValue>): (r: seq<VocabItem>)
    ensures |r| <= |xs|
    ensures forall i :: 0 <= i < |r| ==> ValidItem(r[i])
  {
    if xs == [] then []
    else (match PageToVocabItem(xs[0]) case Some(v) => [v] case None => []) + PageAccepted(xs[1..])
  }

  /** The page keeps exactly the elements the library keeps, in the same order. */
  lemma {:induction false} PageAcceptedAgrees(xs: seq<JsonValue>)
    ensures PageAccepted(xs) == Accepted(xs)
  {
    if xs != [] {
      PageValidatorAgrees(xs[0]);
      PageAcceptedAgrees(xs[1..]);
    }
  }

  /** The chosen import file: none chosen, a file whose text could not be read, text that is not JSON, or a parsed value. */
  datatype ImportFile = NoFile | ReadFailed | Unparsable | Parsed(value: JsonValue)

  /** What `onImportJson` does: nothing, one of three alerts, or a save-day request with the items. */
  datatype ImportOutcome = NothingChosen | ImportFailedAlert | InvalidJsonAlert | NoItemsAlert | SendToSaveDay(items: seq<VocabItem>)

  /** `onImportJson` up to the request: only a non-empty list of accepted array elements is sent. */
  function ImportJson(file: ImportFile): (r: ImportOutcome)
    ensures file.NoFile? <==> r == NothingChosen
    ensures file.ReadFailed? <==> r == ImportFailedAlert
    ensures file.Unparsable? <==> r == InvalidJsonAlert
    ensures file.Parsed? && !file.value.JArr? ==> r == NoItemsAlert
    ensures r.SendToSaveDay? ==> file.Parsed? && file.value.JArr? && r.items == Accepted(file.value.elems) && r.items != []
    ensures file.Parsed? && file.value.JArr? && Accepted(file.value.elems) != [] ==> r.SendToSaveDay?
  {
    match file
    case NoFile => NothingChosen
    case ReadFailed => ImportFailedAlert
    case Unparsable => InvalidJsonAlert
    case Parsed(raw) =>
      var items := if raw.JArr? then PageAccepted(raw.elems) else [];
      PageAcceptedAgrees(if raw.JArr? then raw.elems else []);
      if |items| == 0 then NoItemsAlert else SendToSaveDay(items)
  }

  /** The request body `JSON.stringify({ items })`. */
  function SaveDayBody(items: seq<VocabItem>): JsonValue {
    JObj(map["items" := JArr(ItemsToJson(items))])
  }

  /** save-day stores exactly the items an import sends: it never answers "No items" to one. */
  lemma ImportedItemsSurviveSaveDay(file: ImportFile)
    requires ImportJson(file).SendToSaveDay?
    ensures NormalizeArray(ItemsRaw(Some(SaveDayBody(ImportJson(file).items)))) == ImportJson(file).items
    ensures NormalizeArray(ItemsRaw(Some(SaveDayBody(ImportJson(file).items)))) != []
  {
    var items := ImportJson(file).items;
    assert Property(SaveDayBody(items), "items") == Some(JArr(ItemsToJson(items)));
    NormalizeRoundTrip(items);
  }

  /** `days.reduce((s, d) => s + d.items.length, 0)`. */
  function Total(days: seq<ListedDay>): (t: nat)
    ensures forall i :: 0 <= i < |days| ==> |days[i].items| <= t
    ensures t == 0 <==> forall i :: 0 <= i < |days| ==> days[i].items == []
  {
    if days == [] then 0
    else
      var init := days[..|days| - 1];
      assert forall i :: 0 <= i < |init| ==> init[i] == days[i];
      Total(init) + |days[|days| - 1].items|
  }

  /** The total of two runs of days is the sum of their totals. */
  lemma {:induction false} TotalAppend(a: seq<ListedDay>, b: seq<ListedDay>)
    ensures Total(a + b) == Total(a) + Total(b)
  {
    if b == [] {
      assert a + b == a;
    } else {
      assert (a + b)[..|a + b| - 1] == a + b[..|b| - 1];
      TotalAppend(a, b[..|b| - 1]);
    }
  }

  /** One day adds exactly its own item count. */
  lemma TotalSingleton(d: ListedDay)
    ensures Total([d]) == |d.items|
  {
    assert [d][..0] == [];
  }

  /** `days.length > 0 ? days[0].key : null`. */
  function FirstKey(days: seq<ListedDay>): (r: Option<string>)
    ensures r.Some? <==> |days| > 0
    ensures r.Some? ==> r.value == days[0].key
  {
    if |days| > 0 then Some(days[0].key) else None
  }

  /** On the sorted listing the list route returns, the day opened first has the lowest day number. */
  lemma FirstKeyIsEarliest(days: seq<ListedDay>)
    requires SortedByDay(days)
    ensures FirstKey(days).Some? ==> forall d :: d in days ==> KeyNumber(FirstKey(days).value) <= KeyNumber(d.key)
  {
  }

  /**
   * The open-map update of `loadDays`: existing keys keep their flag, listed keys not yet
   * present are opened, and keys no longer listed stay.
   */
  method MergeOpen(prev: map<string, bool>, arr: seq<ListedDay>) returns (next: map<string, bool>)
    ensures next.Keys == prev.Keys + set d | d in arr :: d.key
    ensures forall k :: k in prev ==> next[k] == prev[k]
    ensures forall k :: k in next && k !in prev ==> next[k]
  {
    next := prev;
    var i := 0;
    while i < |arr|
      invariant 0 <= i <= |arr|
      invariant next.Keys == prev.Keys + set d | d in arr[..i] :: d.key
      invariant forall k :: k in prev ==> next[k] == prev[k]
      invariant forall k :: k in next && k !in prev ==> next[k]
    {
      if arr[i].key !in next {
        next := next[arr[i].key := true];
      }
      assert arr[..i + 1] == arr[..i] + [arr[i]];
      i := i + 1;
    }
    assert arr[..i] == arr;
  }

  /** The page's state: the listed days and which of them are expanded. */
  class FlashCardPage {
    var days: seq<ListedDay>
    var open: map<string, bool>

    constructor ()
      ensures days == [] && open == map[]
    {
      days, open := [], map[];
    }

    /** `loadDays` with the listing `arr` the list route returned. */
    method LoadDays(arr: seq<ListedDay>)
      modifies this
      ensures days == arr
      ensures open.Keys == old(open).Keys + set d | d in arr :: d.key
      ensures forall k :: k in old(open) ==> open[k] == old(open)[k]
      ensures forall k :: k in open && k !in old(open) ==> open[k]
    {
      days := arr;
      open := MergeOpen(open, arr);
    }

    /** The expand/collapse button: flips only that day's flag (a missing flag reads as closed). */
    method Toggle(key: string)
      modifies this
      ensures open == old(open)[key := !(key in old(open) && old(open)[key])]
      ensures days == old(days)
      ensures forall k :: k in old(open) && k != key ==> k in open && open[k] == old(open)[k]
    {
      open := open[key := !(key in open && open[key])];
    }
  }
}

/**
 * The flashcard day-store: a directory of `day-<N>.json` files read and written by five routes
 * (save-day, get, list, delete and the `learn.json` aggregate). The directory is a map from file
 * name to what reading and parsing that file yields.
 */
module Store {

  import opened Wrappers
  import opened JsonValues
  import opened Learn

  /** The store directory: every file name present, with what reading and parsing it yields. */
  type Dir = map<string, Content>

  /** The file a `day` parameter addresses: `${day}.json` in the store directory. */
  function FileName(day: string): string {
    day + ".json"
  }

  /** The canonical key `day-<n>`. */
  function DayKey(n: nat): string {
    "day-" + NatToString(n)
  }

  // ---- Shapes of a parsed day file ----

  /** `df.meta?.dateISO ?? ""`: the stored date, passed through verbatim, or `""` when missing. */
  function StoredDate(j: JsonValue): (d: JsonValue)
    ensures Property(j, "meta").None? ==> d == JStr("")
    ensures Property(j, "meta").Some? && Property(Property(j, "meta").value, "dateISO").None? ==> d == JStr("")
    ensures Property(j, "meta").Some? && Property(Property(j, "meta").value, "dateISO").Some? ==>
              d == Property(Property(j, "meta").value, "dateISO").value
    ensures d != JNull
  {
    match Property(j, "meta")
    case Some(meta) => Property(meta, "dateISO").GetOr(JStr(""))
    case None => JStr("")
  }

  /** The two on-disk shapes of a day file, and everything else. */
  datatype DayShape =
    | Wrapped(dateISO: JsonValue, items: JsonValue)
    | Bare(elems: seq<JsonValue>)
    | OtherShape

  /**
   * The shape test the routes share: a non-array object with an `items` key is the wrapped
   * shape (an array has no `items` property), an array is the legacy bare shape.
   */
  function ShapeOf(j: JsonValue): (s: DayShape)
    ensures s.Wrapped? <==> j.JObj? && "items" in j.fields
    ensures s.Bare? <==> j.JArr?
    ensures s.Wrapped? ==> s.items == j.fields["items"] && s.dateISO == StoredDate(j)
    ensures s.Bare? ==> s.elems == j.elems
  {
    if j.JObj? && "items" in j.fields then Wrapped(StoredDate(j), j.fields["items"])
    else if j.JArr? then Bare(j.elems)
    else OtherShape
  }

  /** The wrapped shape `{ meta: { dateISO }, items }` around a raw items value. */
  function WrapRaw(dateISO: string, items: JsonValue): JsonValue {
    JObj(map["meta" := JObj(map["dateISO" := JStr(dateISO)]), "items" := items])
  }

  /** What save-day writes: the wrapped shape around the written form of the items. */
  function DayFileJson(dateISO: string, items: seq<VocabItem>): JsonValue {
    WrapRaw(dateISO, JArr(ItemsToJson(items)))
  }

  // ---- save-day: the next key ----

  /** `m` is what the save-day loop leaves in `max`: 0 or a day number present, and no smaller than any. */
  ghost predicate IsMaxDay(names: set<string>, m: nat) {
    && (forall f :: f in names && ParseDayNumber(f).Some? ==> ParseDayNumber(f).value <= m)
    && (m == 0 || exists f :: f in names && ParseDayNumber(f) == Some(m))
  }

  /** The largest day number among the names, 0 when there is none. */
  ghost function MaxDayNumber(names: set<string>): (m: nat)
    ensures IsMaxDay(names, m)
    decreases names
  {
    if names == {} then 0
    else
      var f :| f in names;
      var rest := MaxDayNumber(names - {f});
      match ParseDayNumber(f)
      case Some(n) => if n > rest then n else rest
      case None => rest
  }

  /** Only one number satisfies the loop's invariant, so the loop computes `MaxDayNumber`. */
  lemma MaxDayUnique(names: set<string>, m1: nat, m2: nat)
    requires IsMaxDay(names, m1) && IsMaxDay(names, m2)
    ensures m1 == m2
  {
  }

  /** The next day number exceeds every day number present, so its file does not exist yet. */
  lemma NextDayIsFresh(names: set<string>)
    ensures forall f :: f in names && ParseDayNumber(f).Some? ==> ParseDayNumber(f).value < MaxDayNumber(names) + 1
    ensures DayFileName(MaxDayNumber(names) + 1) !in names
  {
    ParseDayFileName(MaxDayNumber(names) + 1);
  }

  /** After a save the maximum is the number just assigned, so sequential saves count up by one. */
  lemma SaveAdvancesMax(names: set<string>)
    ensures MaxDayNumber(names + {DayFileName(MaxDayNumber(names) + 1)}) == MaxDayNumber(names) + 1
  {
    var n := MaxDayNumber(names) + 1;
    var after := names + {DayFileName(n)};
    ParseDayFileName(n);
    assert IsMaxDay(after, n);
    MaxDayUnique(after, n, MaxDayNumber(after));
  }

  /** An empty directory yields `day-1`. */
  lemma EmptyStoreStartsAtOne()
    ensures DayKey(MaxDayNumber({}) + 1) == "day-1"
  {
  }

  /**
   * Numbers are not reused below the maximum, but deleting the highest day lets its number be
   * assigned again: with `day-<n>.json` the only name at or above `n - 1`, and day `n - 1`
   * present, removing it makes the next number `n` once more.
   */
  lemma DeletingHighestAllowsReuse(names: set<string>, n: nat)
    requires n >= 2 && DayFileName(n) in names && DayFileName(n - 1) in names
    requires forall f :: f in names && f != DayFileName(n) && ParseDayNumber(f).Some? ==> ParseDayNumber(f).value <= n - 1
    ensures MaxDayNumber(names) + 1 == n + 1
    ensures MaxDayNumber(names - {DayFileName(n)}) + 1 == n
  {
    ParseDayFileName(n);
    ParseDayFileName(n - 1);
    assert IsMaxDay(names, n);
    MaxDayUnique(names, n, MaxDayNumber(names));
    var rest := names - {DayFileName(n)};
    assert DayFileName(n - 1) in rest;
    assert IsMaxDay(rest, n - 1);
    MaxDayUnique(rest, n - 1, MaxDayNumber(rest));
  }

  // ---- save-day: the request ----

  /** `body?.items ?? []`, where `None` is a body that is not JSON (read as `{}`). */
  function ItemsRaw(body: Option<JsonValue>): (raw: JsonValue)
    ensures body.None? || Property(body.value, "items").None? ==> raw == JArr([])
    ensures body.Some? && Property(body.value, "items").Some? ==> raw == body.value.fields["items"]
  {
    if body.None? then JArr([]) else Property(body.value, "items").GetOr(JArr([]))
  }

  /** Only a JSON object body with an `items` key can carry items to save. */
  lemma SavedItemsNeedItemsKey(body: Option<JsonValue>)
    ensures NormalizeArray(ItemsRaw(body)) != [] ==> body.Some? && body.value.JObj? && "items" in body.value.fields
  {
  }

  datatype SaveResponse = Saved(key: string, dateISO: string, count: nat) | NoItems

  // ---- get ----

  datatype GetResponse =
    | Found(key: string, dateISO: JsonValue, items: seq<VocabItem>)
    | MissingDay
    | NotFound
    | BadJsonFile

  /** The get route: one lookup, then the wrapped/bare decode of the parsed file. */
  function Get(dir: Dir, day: Option<string>): (r: GetResponse)
    ensures r == MissingDay <==> day.None? || day.value == ""
    ensures r == NotFound <==>
              && day.Some? && day.value != ""
              && (FileName(day.value) !in dir || dir[FileName(day.value)] in {Unreadable, Empty})
    ensures r == BadJsonFile <==>
              day.Some? && day.value != "" && FileName(day.value) in dir && dir[FileName(day.value)] == BadJson
    ensures r.Found? ==> r.key == day.value && forall i :: 0 <= i < |r.items| ==> ValidItem(r.items[i])
  {
    if day.None? || day.value == "" then MissingDay
    else if FileName(day.value) !in dir then NotFound
    else
      match dir[FileName(day.value)]
      case Unreadable => NotFound
      case Empty => NotFound
      case BadJson => BadJsonFile
      case Json(j) =>
        match ShapeOf(j)
        case Wrapped(date, items) => Found(day.value, date, NormalizeArray(items))
        case Bare(elems) => Found(day.value, JStr(""), NormalizeArray(JArr(elems)))
        case OtherShape => Found(day.value, JStr(""), [])
  }

  /** Round trip: a file written by save-day reads back with the same items and date. */
  lemma GetAfterSave(dir: Dir, key: string, dateISO: string, items: seq<VocabItem>)
    requires key != ""
    requires forall i :: 0 <= i < |items| ==> ValidItem(items[i])
    ensures Get(dir[FileName(key) := Json(DayFileJson(dateISO, items))], Some(key)) == Found(key, JStr(dateISO), items)
  {
    var j := DayFileJson(dateISO, items);
    assert Property(j, "meta") == Some(JObj(map["dateISO" := JStr(dateISO)]));
    NormalizeRoundTrip(items);
  }

  /** A legacy bare array reads exactly like the wrapped shape with an empty date around it. */
  lemma LegacyReadsLikeWrapped(dir: Dir, day: string, elems: seq<JsonValue>)
    requires day != ""
    ensures Get(dir[FileName(day) := Json(JArr(elems))], Some(day))
         == Get(dir[FileName(day) := Json(WrapRaw("", JArr(elems)))], Some(day))
    ensures Get(dir[FileName(day) := Json(JArr(elems))], Some(day)) == Found(day, JStr(""), Accepted(elems))
  {
    assert Property(WrapRaw("", JArr(elems)), "meta") == Some(JObj(map["dateISO" := JStr("")]));
  }

  /** A parsed value of any other shape reads as a day with no items and no date. */
  lemma OtherShapeReadsEmpty(dir: Dir, day: string, j: JsonValue)
    requires day != "" && !j.JArr? && !(j.JObj? && "items" in j.fields)
    ensures Get(dir[FileName(day) := Json(j)], Some(day)) == Found(day, JStr(""), [])
  {
  }

  /** Any wrapped file reads back as its stored date and its normalised items. */
  lemma GetWrapped(dir: Dir, day: string, j: JsonValue)
    requires day != "" && j.JObj? && "items" in j.fields
    ensures Get(dir[FileName(day) := Json(j)], Some(day)) == Found(day, StoredDate(j), NormalizeArray(j.fields["items"]))
  {
  }

  // ---- list ----

  /** One record of the listing; its items are the stored array verbatim, not normalised. */
  datatype ListedDay = ListedDay(key: string, dateISO: JsonValue, items: seq<JsonValue>)

  /** `s.replace(pat, "")`: the first occurrence of `pat` removed. */
  function RemoveFirst(s: string, pat: string): string
    decreases |s|
  {
    if |pat| <= |s| && s[..|pat|] == pat then s[|pat|..]
    else if s == [] then s
    else [s[0]] + RemoveFirst(s[1..], pat)
  }

  /** The leading run of decimal digits of a string. */
  function DigitPrefix(s: string): (p: string)
    ensures AllDigits(p) && |p| <= |s|
    ensures p == s[..|p|]
    ensures |p| == |s| || !IsDigit(s[|p|])
  {
    if s == [] || !IsDigit(s[0]) then [] else [s[0]] + DigitPrefix(s[1..])
  }

  /** The sort key `parseInt(key.replace("day-", ""), 10) || 0`. */
  function KeyNumber(key: string): (n: nat)
    ensures AllDigits(RemoveFirst(key, "day-")) ==> n == DigitsValue(RemoveFirst(key, "day-"))
    ensures DigitPrefix(RemoveFirst(key, "day-")) == [] ==> n == 0
  {
    var rest := RemoveFirst(key, "day-");
    DigitPrefixWhole(rest);
    DigitsValue(DigitPrefix(rest))
  }

  lemma {:induction false} DigitPrefixOfDigits(s: string)
    requires AllDigits(s)
    ensures DigitPrefix(s) == s
  {
    if s != [] {
      DigitPrefixOfDigits(s[1..]);
    }
  }

  lemma DigitPrefixWhole(s: string)
    ensures AllDigits(s) ==> DigitPrefix(s) == s
  {
    if AllDigits(s) {
      DigitPrefixOfDigits(s);
    }
  }

  /** The comparator reads back the number a canonical key was built from. */
  lemma KeyNumberOfDayKey(n: nat)
    ensures KeyNumber(DayKey(n)) == n
  {
    var key := DayKey(n);
    assert key[..4] == "day-";
    assert RemoveFirst(key, "day-") == NatToString(n);
    DigitPrefixOfDigits(NatToString(n));
    DigitsOfNatToString(n);
  }

  /**
   * The record the list loop pushes for one directory entry, if any. The `"?"` fallback of the
   * source is kept, and the contract shows it cannot be reached after the name filter.
   */
  function ListRecord(name: string, c: Content): (r: Option<ListedDay>)
    ensures r.Some? <==> MatchesDayPattern(name) && c.Json? && !ShapeOf(c.value).OtherShape?
    ensures r.Some? ==> r.value.key == DayKey(ParseDayNumber(name).value)
    ensures r.Some? ==> KeyNumber(r.value.key) == ParseDayNumber(name).value
    ensures r.Some? && c.value.JObj? ==>
              && r.value.dateISO == StoredDate(c.value)
              && r.value.items == (if c.value.fields["items"].JArr? then c.value.fields["items"].elems else [])
    ensures r.Some? && c.value.JArr? ==> r.value.dateISO == JStr("") && r.value.items == c.value.elems
  {
    if !MatchesDayPattern(name) || !c.Json? then None
    else
      var key := match ParseDayNumber(name) case Some(n) => DayKey(n) case None => "day-?";
      KeyNumberOfDayKey(ParseDayNumber(name).value);
      match ShapeOf(c.value)
      case Wrapped(date, items) => Some(ListedDay(key, date, if items.JArr? then items.elems else []))
      case Bare(elems) => Some(ListedDay(key, JStr(""), elems))
      case OtherShape => None
  }

  /** The records of the named entries, in the order the names are visited. */
  function Scan(dir: Dir, names: seq<string>): (r: seq<ListedDay>)
    requires forall i :: 0 <= i < |names| ==> names[i] in dir
    ensures |r| <= |names|
  {
    if names == [] then []
    else
      var last := names[|names| - 1];
      Scan(dir, names[..|names| - 1]) + (match ListRecord(last, dir[last]) case Some(d) => [d] case None => [])
  }

  /** Visiting one more name appends that entry's record, if it has one. */
  lemma ScanSnoc(dir: Dir, names: seq<string>, f: string)
    requires forall i :: 0 <= i < |names| ==> names[i] in dir
    requires f in dir
    ensures forall i :: 0 <= i < |names + [f]| ==> (names + [f])[i] in dir
    ensures Scan(dir, names + [f]) == Scan(dir, names) + (match ListRecord(f, dir[f]) case Some(d) => [d] case None => [])
  {
    assert (names + [f])[..|names|] == names;
  }

  /** Every visited name whose file is usable contributes its record. */
  lemma {:induction false} ScanComplete(dir: Dir, names: seq<string>)
    requires forall i :: 0 <= i < |names| ==> names[i] in dir
    ensures forall i :: 0 <= i < |names| && ListRecord(names[i], dir[names[i]]).Some? ==>
              ListRecord(names[i], dir[names[i]]).value in Scan(dir, names)
  {
    if names != [] {
      var init, last := names[..|names| - 1], names[|names| - 1];
      ScanComplete(dir, init);
      assert names == init + [last];
      ScanSnoc(dir, init, last);
      assert forall i :: 0 <= i < |init| ==> init[i] == names[i];
    }
  }

  /** The listing follows the visit order: scanning two runs of names concatenates their records. */
  lemma {:induction false} ScanAppend(dir: Dir, a: seq<string>, b: seq<string>)
    requires forall i :: 0 <= i < |a| ==> a[i] in dir
    requires forall i :: 0 <= i < |b| ==> b[i] in dir
    ensures forall i :: 0 <= i < |a + b| ==> (a + b)[i] in dir
    ensures Scan(dir, a + b) == Scan(dir, a) + Scan(dir, b)
  {
    assert forall i :: 0 <= i < |a + b| ==> (a + b)[i] in dir by {
      forall i | 0 <= i < |a + b| ensures (a + b)[i] in dir {
        if i < |a| { assert (a + b)[i] == a[i]; } else { assert (a + b)[i] == b[i - |a|]; }
      }
    }
    if b == [] {
      assert a + b == a;
    } else {
      var init := b[..|b| - 1];
      assert (a + b)[..|a + b| - 1] == a + init;
      assert (a + b)[|a + b| - 1] == b[|b| - 1];
      ScanAppend(dir, a, init);
    }
  }

  /** The list route skips only the files it cannot use: every usable day file of a full visit is listed. */
  lemma ScanListsEveryDayFile(dir: Dir, listing: seq<string>, f: string)
    requires IsListing(listing, dir.Keys)
    requires f in dir && ListRecord(f, dir[f]).Some?
    ensures forall i :: 0 <= i < |listing| ==> listing[i] in dir
    ensures ListRecord(f, dir[f]).value in Scan(dir, listing)
  {
    var i :| 0 <= i < |listing| && listing[i] == f;
    ScanComplete(dir, listing);
  }

  /** A file written by save-day is listed with its date and the written items. */
  lemma ListAfterSave(n: nat, dateISO: string, items: seq<VocabItem>)
    ensures ListRecord(DayFileName(n), Json(DayFileJson(dateISO, items)))
            == Some(ListedDay(DayKey(n), JStr(dateISO), ItemsToJson(items)))
  {
    ParseDayFileName(n);
    assert Property(DayFileJson(dateISO, items), "meta") == Some(JObj(map["dateISO" := JStr(dateISO)]));
  }

  /** The list route reads a bare array like the wrapped file around it with an empty date. */
  lemma LegacyListsLikeWrapped(name: string, elems: seq<JsonValue>)
    ensures ListRecord(name, Json(JArr(elems))) == ListRecord(name, Json(WrapRaw("", JArr(elems))))
  {
    assert Property(WrapRaw("", JArr(elems)), "meta") == Some(JObj(map["dateISO" := JStr("")]));
  }

  /** Every listed record comes from a day file present in the directory, under its canonical key. */
  lemma {:induction false} ScanRecordsFromFiles(dir: Dir, names: seq<string>)
    requires forall i :: 0 <= i < |names| ==> names[i] in dir
    ensures forall d :: d in Scan(dir, names) ==>
              exists f :: f in dir && ListRecord(f, dir[f]) == Some(d) && d.key == DayKey(ParseDayNumber(f).value)
  {
    if names != [] {
      ScanRecordsFromFiles(dir, names[..|names| - 1]);
    }
  }

  /** `listing` visits each name of `names` exactly once. */
  ghost predicate IsListing(listing: seq<string>, names: set<string>) {
    && (forall i :: 0 <= i < |listing| ==> listing[i] in names)
    && (forall f :: f in names ==> f in listing)
    && (forall i, j :: 0 <= i < j < |listing| ==> listing[i] != listing[j])
  }

  /** The order the list route sorts by: non-decreasing day number. */
  predicate SortedByDay(s: seq<ListedDay>) {
    forall p, q :: 0 <= p < q < |s| ==> KeyNumber(s[p].key) <= KeyNumber(s[q].key)
  }

  /** Day `x` sorts no later than day `y`. */
  predicate DayLe(x: ListedDay, y: ListedDay) {
    KeyNumber(x.key) <= KeyNumber(y.key)
  }

  /** Exchanges two neighbouring records. */
  method SwapDown(a: array<ListedDay>, j: int)
    requires 0 < j < a.Length
    modifies a
    ensures a[..] == old(a[..])[j - 1 := old(a[j])][j := old(a[j - 1])]
    ensures multiset(a[..]) == multiset(old(a[..]))
  {
    a[j - 1], a[j] := a[j], a[j - 1];
  }

  /** The first `n` records are in day order. */
  predicate SortedPrefix(s: seq<ListedDay>, n: int) {
    forall p, q :: 0 <= p < q < n && q < |s| ==> DayLe(s[p], s[q])
  }

  /** While `s[j]` sinks through `s[..i + 1]`: the other records are in order and `s[j]` precedes those after it. */
  predicate Sinking(s: seq<ListedDay>, i: int, j: int) {
    && (forall p, q :: 0 <= p < q <= i && q < |s| && p != j && q != j ==> DayLe(s[p], s[q]))
    && (forall q :: j < q <= i && 0 <= j && q < |s| ==> DayLe(s[j], s[q]))
  }

  /** One exchange moves the sinking record down a place and keeps the rest in order. */
  lemma SinkStep(s: seq<ListedDay>, i: int, j: int)
    requires 0 < j <= i < |s|
    requires Sinking(s, i, j) && !DayLe(s[j - 1], s[j])
    ensures Sinking(s[j - 1 := s[j]][j := s[j - 1]], i, j - 1)
  {
    var t := s[j - 1 := s[j]][j := s[j - 1]];
    forall q | j - 1 < q <= i
      ensures DayLe(t[j - 1], t[q])
    {
      if q > j {
        assert DayLe(s[j], s[q]);
      }
    }
  }

  /** Sinking stops once the record sits after one that precedes it, or at the front: the prefix is then sorted. */
  lemma SinkDone(s: seq<ListedDay>, i: int, j: int)
    requires 0 <= j <= i < |s|
    requires Sinking(s, i, j) && (j == 0 || DayLe(s[j - 1], s[j]))
    ensures SortedPrefix(s, i + 1)
  {
    forall p, q | 0 <= p < q < i + 1
      ensures DayLe(s[p], s[q])
    {
      if q == j && p < j - 1 {
        assert DayLe(s[p], s[j - 1]);
      }
    }
  }

  /** Sinks `a[i]` into the sorted prefix `a[..i]`, leaving `a[..i + 1]` sorted. */
  method Sink(a: array<ListedDay>, i: int)
    requires 0 <= i < a.Length
    requires SortedPrefix(a[..], i)
    modifies a
    ensures SortedPrefix(a[..], i + 1)
    ensures multiset(a[..]) == multiset(old(a[..]))
  {
    var j := i;
    while j > 0 && !DayLe(a[j - 1], a[j])
      invariant 0 <= j <= i
      invariant Sinking(a[..], i, j)
      invariant multiset(a[..]) == multiset(old(a[..]))
    {
      SinkStep(a[..], i, j);
      SwapDown(a, j);
      j := j - 1;
    }
    SinkDone(a[..], i, j);
  }

  /** `days.sort((a, b) => na - nb)`, in place: insertion sort by the key's number. */
  method SortByDay(a: array<ListedDay>)
    modifies a
    ensures SortedByDay(a[..])
    ensures multiset(a[..]) == multiset(old(a[..]))
  {
    var i := 0;
    while i < a.Length
      invariant 0 <= i <= a.Length
      invariant SortedPrefix(a[..], i)
      invariant multiset(a[..]) == multiset(old(a[..]))
    {
      Sink(a, i);
      i := i + 1;
    }
  }

  // ---- learn.json ----

  /** `f.replace(/\.json$/i, "")`: the name without its `.json` suffix, case and zeros kept. */
  function Stem(name: string): (stem: string)
    ensures |name| >= 5 && EqualsIgnoreCase(name[|name| - 5..], ".json") ==> stem + name[|name| - 5..] == name
    ensures !(|name| >= 5 && EqualsIgnoreCase(name[|name| - 5..], ".json")) ==> stem == name
  {
    if |name| >= 5 && EqualsIgnoreCase(name[|name| - 5..], ".json") then name[..|name| - 5] else name
  }

  /** The value learn.json records for one directory entry, if any: the normalised items. */
  function AggregateItems(name: string, c: Content): (r: Option<seq<VocabItem>>)
    ensures r.Some? <==> MatchesDayPattern(name) && c.Json? && !ShapeOf(c.value).OtherShape?
    ensures r.Some? ==> forall i :: 0 <= i < |r.value| ==> ValidItem(r.value[i])
    ensures r.Some? && c.value.JObj? ==> r.value == NormalizeArray(c.value.fields["items"])
    ensures r.Some? && c.value.JArr? ==> r.value == Accepted(c.value.elems)
  {
    if !MatchesDayPattern(name) || !c.Json? then None
    else
      match ShapeOf(c.value)
      case Wrapped(_, items) => Some(NormalizeArray(items))
      case Bare(elems) => Some(NormalizeArray(JArr(elems)))
      case OtherShape => None
  }

  /** The aggregate key of a canonical day file is its day key. */
  lemma StemOfDayFileName(n: nat)
    ensures Stem(DayFileName(n)) == DayKey(n)
  {
    var name := DayFileName(n);
    assert name[|name| - 5..] == ".json";
    assert name[..|name| - 5] == DayKey(n);
  }

  /** A file written by save-day aggregates to exactly the written items. */
  lemma AggregateAfterSave(n: nat, dateISO: string, items: seq<VocabItem>)
    requires forall i :: 0 <= i < |items| ==> ValidItem(items[i])
    ensures AggregateItems(DayFileName(n), Json(DayFileJson(dateISO, items))) == Some(items)
  {
    ParseDayFileName(n);
    NormalizeRoundTrip(items);
  }

  /** learn.json reads a bare array like the wrapped file around it. */
  lemma LegacyAggregatesLikeWrapped(name: string, elems: seq<JsonValue>)
    ensures AggregateItems(name, Json(JArr(elems))) == AggregateItems(name, Json(WrapRaw("", JArr(elems))))
  {
  }

  // ---- delete ----

  datatype DeleteResponse = Deleted | DeleteMissingDay | DeleteNotFound

  /** Delete finality: once a day's file is removed, get reports it as not found. */
  lemma GetAfterDelete(dir: Dir, day: string)
    requires day != ""
    ensures Get(dir - {FileName(day)}, Some(day)) == NotFound
  {
  }

  /** The save route's pass over the directory: the largest day number among the file names. */
  method HighestDayNumber(names: set<string>) returns (max: nat)
    ensures max == MaxDayNumber(names)
  {
    max := 0;
    var rest := names;
    while rest != {}
      invariant rest <= names
      invariant IsMaxDay(names - rest, max)
      decreases rest
    {
      var f :| f in rest;
      var n := ParseDayNumber(f);
      if n.Some? && n.value != 0 && n.value > max {
        max := n.value;
      }
      assert f in names - (rest - {f});
      rest := rest - {f};
    }
    assert names - rest == names;
    MaxDayUnique(names, max, MaxDayNumber(names));
  }

  /** The list route's pass over the directory: the records of the usable files, in visit order. */
  method ScanDir(dir: Dir) returns (days: seq<ListedDay>, ghost listing: seq<string>)
    ensures IsListing(listing, dir.Keys)
    ensures days == Scan(dir, listing)
  {
    days, listing := [], [];
    var names := dir.Keys;
    while names != {}
      invariant names <= dir.Keys
      invariant IsListing(listing, dir.Keys - names)
      invariant forall i :: 0 <= i < |listing| ==> listing[i] !in names
      invariant days == Scan(dir, listing)
      decreases names
    {
      var f :| f in names;
      var rec := ListRecord(f, dir[f]);
      if rec.Some? {
        days := days + [rec.value];
      }
      ScanSnoc(dir, listing, f);
      listing := listing + [f];
      names := names - {f};
    }
  }

  /** The store directory and the routes that read and change it. */
  class DayStore {
    var files: Dir

    constructor (initial: Dir)
      ensures files == initial
    {
      files := initial;
    }

    /**
     * The save-day route: normalise the body's items; with none, answer "No items" and write
     * nothing; otherwise add exactly one file, `day-<max+1>.json`, holding the wrapped shape.
     */
    method Save(body: Option<JsonValue>, dateISO: string) returns (r: SaveResponse)
      modifies this
      ensures NormalizeArray(ItemsRaw(body)) == [] ==> r == NoItems && files == old(files)
      ensures NormalizeArray(ItemsRaw(body)) != [] ==>
                var n := MaxDayNumber(old(files).Keys) + 1;
                var items := NormalizeArray(ItemsRaw(body));
                && r == Saved(DayKey(n), dateISO, |items|)
                && FileName(DayKey(n)) !in old(files)
                && files == old(files)[FileName(DayKey(n)) := Json(DayFileJson(dateISO, items))]
    {
      var items := NormalizeArray(ItemsRaw(body));
      if |items| == 0 {
        return NoItems;
      }
      var max := HighestDayNumber(files.Keys);
      NextDayIsFresh(files.Keys);
      var key := DayKey(max + 1);
      files := files[FileName(key) := Json(DayFileJson(dateISO, items))];
      r := Saved(key, dateISO, |items|);
    }

    /**
     * The list route: every day file that reads and parses to one of the two shapes gives one
     * record; the records are then sorted by day number.
     */
    method List() returns (days: seq<ListedDay>, ghost listing: seq<string>)
      ensures IsListing(listing, files.Keys)
      ensures multiset(days) == multiset(Scan(files, listing))
      ensures SortedByDay(days)
    {
      days, listing := ScanDir(files);
      var a := new ListedDay[|days|](i requires 0 <= i < |days| => days[i]);
      assert a[..] == days;
      SortByDay(a);
      days := a[..];
    }

    /** The learn.json route: each eligible day file's stem mapped to its normalised items. */
    method Aggregate() returns (out: map<string, seq<VocabItem>>)
      ensures forall f :: f in files && AggregateItems(f, files[f]).Some? ==> Stem(f) in out
      ensures forall k :: k in out ==>
                exists f :: f in files && Stem(f) == k && AggregateItems(f, files[f]) == Some(out[k])
      ensures forall k :: k in out ==> forall i :: 0 <= i < |out[k]| ==> ValidItem(out[k][i])
    {
      out := map[];
      var names := files.Keys;
      while names != {}
        invariant names <= files.Keys
        invariant forall f :: f in files && f !in names && AggregateItems(f, files[f]).Some? ==> Stem(f) in out
        invariant forall k :: k in out ==>
                    exists f :: f in files && f !in names && Stem(f) == k && AggregateItems(f, files[f]) == Some(out[k])
        decreases names
      {
        var f :| f in names;
        var value := AggregateItems(f, files[f]);
        if value.Some? {
          out := out[Stem(f) := value.value];
        }
        names := names - {f};
      }
    }

    /** The delete route: remove `<day>.json` if present, and touch nothing else. */
    method Delete(day: Option<string>) returns (r: DeleteResponse)
      modifies this
      ensures (day.None? || day.value == "") ==> r == DeleteMissingDay && files == old(files)
      ensures day.Some? && day.value != "" && FileName(day.value) in old(files) ==>
                r == Deleted && files == old(files) - {FileName(day.value)}
      ensures day.Some? && day.value != "" && FileName(day.value) !in old(files) ==>
                r == DeleteNotFound && files == old(files)
    {
      if day.None? || day.value == "" {
        return DeleteMissingDay;
      }
      var name := FileName(day.value);
      if name in files {
        files := files - {name};
        r := Deleted;
      } else {
        r := DeleteNotFound;
      }
    }
  }
}

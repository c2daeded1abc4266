/**
 * The vocabulary library shared by the day-store routes: validating one decoded element into a
 * vocabulary item, normalising a decoded array, and reading the day number out of a file name.
 */
module Learn {

  import opened Wrappers
  import opened JsonValues

  /** One flashcard entry; every optional field is either a string or undefined. */
  datatype VocabItem = VocabItem(
    word: string,
    pronunciation: Option<string>,
    meaningEn: Option<string>,
    meaningVi: Option<string>,
    synonyms: Option<seq<string>>,
    example: Option<string>)

  /** The invariant of every normalised item: its word is a non-empty string. */
  predicate ValidItem(v: VocabItem) {
    v.word != ""
  }

  /** An element `toVocabItem` accepts: a non-array object whose `word` is a non-empty string. */
  predicate HasWord(it: JsonValue) {
    it.JObj? && "word" in it.fields && it.fields["word"].JStr? && it.fields["word"].str != ""
  }

  /** An optional string field: copied when the raw value is a string, otherwise undefined. */
  function StringField(fields: map<string, JsonValue>, name: string): Option<string> {
    if name in fields && fields[name].JStr? then Some(fields[name].str) else None
  }

  /** The string elements of a raw array, in their original order. */
  function StringsOnly(xs: seq<JsonValue>): (r: seq<string>)
    ensures |r| <= |xs|
    ensures forall s :: s in r <==> JStr(s) in xs
  {
    if xs == [] then []
    else
      assert forall x :: x in xs <==> x == xs[0] || x in xs[1..] by {
        assert xs == [xs[0]] + xs[1..];
      }
      (if xs[0].JStr? then [xs[0].str] else []) + StringsOnly(xs[1..])
  }

  /** The filter keeps the original order: it distributes over two runs of elements. */
  lemma {:induction false} StringsOnlyAppend(a: seq<JsonValue>, b: seq<JsonValue>)
    ensures StringsOnly(a + b) == StringsOnly(a) + StringsOnly(b)
  {
    if a == [] {
      assert a + b == b;
    } else {
      var ab := a + b;
      assert ab[0] == a[0] && ab[1..] == a[1..] + b;
      StringsOnlyAppend(a[1..], b);
    }
  }

  /** `["a", 5, null, "b"]` keeps `["a", "b"]`: non-strings are dropped and the order is kept. */
  lemma MixedSynonyms()
    ensures StringsOnly([JStr("a"), JNum(5), JNull, JStr("b")]) == ["a", "b"]
  {
    var xs := [JStr("a"), JNum(5), JNull, JStr("b")];
    assert xs[1..] == [JNum(5), JNull, JStr("b")];
    assert xs[1..][1..] == [JNull, JStr("b")];
    assert xs[1..][1..][1..] == [JStr("b")];
    assert xs[1..][1..][1..][1..] == [];
  }

  /** `synonyms`: the string elements when the raw value is an array, otherwise undefined. */
  function SynonymsField(fields: map<string, JsonValue>): Option<seq<string>> {
    if "synonyms" in fields && fields["synonyms"].JArr? then Some(StringsOnly(fields["synonyms"].elems))
    else None
  }

  /** `toVocabItem`: validates one decoded element; `None` stands for the source's `null`. */
  function ToVocabItem(it: JsonValue): (r: Option<VocabItem>)
    ensures r.Some? <==> HasWord(it)
    ensures r.Some? ==> ValidItem(r.value) && JStr(r.value.word) == it.fields["word"]
    ensures r.Some? ==>
              && r.value.pronunciation == StringField(it.fields, "pronunciation")
              && r.value.meaningEn == StringField(it.fields, "meaningEn")
              && r.value.meaningVi == StringField(it.fields, "meaningVi")
              && r.value.example == StringField(it.fields, "example")
              && r.value.synonyms == SynonymsField(it.fields)
  {
    if !HasWord(it) then None
    else
      var obj := it.fields;
      Some(VocabItem(
        obj["word"].str,
        StringField(obj, "pronunciation"),
        StringField(obj, "meaningEn"),
        StringField(obj, "meaningVi"),
        SynonymsField(obj),
        StringField(obj, "example")))
  }

  /** `input.map(toVocabItem).filter(x => x !== null)` on the elements of an array. */
  function Accepted(xs: seq<JsonValue>): (r: seq<VocabItem>)
    ensures |r| <= |xs|
    ensures forall i :: 0 <= i < |r| ==> ValidItem(r[i])
    ensures forall v :: v in r ==> exists x :: x in xs && ToVocabItem(x) == Some(v)
  {
    if xs == [] then []
    else
      var head := match ToVocabItem(xs[0]) case Some(v) => [v] case None => [];
      var rest := Accepted(xs[1..]);
      assert forall x :: x in xs[1..] ==> x in xs;
      assert forall v :: v in head ==> ToVocabItem(xs[0]) == Some(v);
      head + rest
  }

  /** `normalizeArray`: a non-array yields no items; an array yields its accepted elements. */
  function NormalizeArray(input: JsonValue): (r: seq<VocabItem>)
    ensures !input.JArr? ==> r == []
    ensures input.JArr? ==> r == Accepted(input.elems) && |r| <= |input.elems|
    ensures forall i :: 0 <= i < |r| ==> ValidItem(r[i])
  {
    if input.JArr? then Accepted(input.elems) else []
  }

  /** The accepted-subsequence rule distributes over concatenation: order is kept, nothing is merged. */
  lemma {:induction false} AcceptedAppend(a: seq<JsonValue>, b: seq<JsonValue>)
    ensures Accepted(a + b) == Accepted(a) + Accepted(b)
  {
    if a == [] {
      assert a + b == b;
    } else {
      var ab := a + b;
      assert ab[0] == a[0];
      assert ab[1..] == a[1..] + b;
      AcceptedAppend(a[1..], b);
      var head := match ToVocabItem(a[0]) case Some(v) => [v] case None => [];
      calc {
        Accepted(ab);
        head + Accepted(ab[1..]);
        head + (Accepted(a[1..]) + Accepted(b));
        (head + Accepted(a[1..])) + Accepted(b);
        Accepted(a) + Accepted(b);
      }
    }
  }

  /** An element is kept exactly when `toVocabItem` accepts it, and then as that item. */
  lemma AcceptedSingleton(x: JsonValue)
    ensures Accepted([x]) == if HasWord(x) then [ToVocabItem(x).value] else []
  {
    assert [x][1..] == [];
  }

  /** When every element is accepted, nothing is dropped and positions are kept. */
  lemma {:induction false} AcceptedAll(xs: seq<JsonValue>)
    requires forall i :: 0 <= i < |xs| ==> HasWord(xs[i])
    ensures |Accepted(xs)| == |xs|
    ensures forall i :: 0 <= i < |xs| ==> Accepted(xs)[i] == ToVocabItem(xs[i]).value
  {
    if xs != [] {
      AcceptedAll(xs[1..]);
    }
  }

  /** When no element is accepted, the result is empty. */
  lemma {:induction false} AcceptedNone(xs: seq<JsonValue>)
    requires forall i :: 0 <= i < |xs| ==> !HasWord(xs[i])
    ensures Accepted(xs) == []
  {
    if xs != [] {
      AcceptedNone(xs[1..]);
    }
  }

  // ---- The stored form of an item: what `JSON.stringify` writes for it ----

  /** The raw array `JSON.stringify` writes for a list of strings. */
  function StringsToJson(ss: seq<string>): (r: seq<JsonValue>)
    ensures |r| == |ss|
  {
    if ss == [] then [] else [JStr(ss[0])] + StringsToJson(ss[1..])
  }

  /** Adds a string-valued key only when it is defined, as `JSON.stringify` omits `undefined`. */
  function PutString(m: map<string, JsonValue>, name: string, o: Option<string>): map<string, JsonValue> {
    if o.Some? then m[name := JStr(o.value)] else m
  }

  /** The object `JSON.stringify` writes for one item: undefined fields are omitted. */
  function ItemToJson(v: VocabItem): (j: JsonValue)
    ensures j.JObj?
  {
    var m0 := map["word" := JStr(v.word)];
    var m1 := PutString(m0, "pronunciation", v.pronunciation);
    var m2 := PutString(m1, "meaningEn", v.meaningEn);
    var m3 := PutString(m2, "meaningVi", v.meaningVi);
    var m4 := if v.synonyms.Some? then m3["synonyms" := JArr(StringsToJson(v.synonyms.value))] else m3;
    JObj(PutString(m4, "example", v.example))
  }

  /** The array `JSON.stringify` writes for a list of items. */
  function ItemsToJson(vs: seq<VocabItem>): (r: seq<JsonValue>)
    ensures |r| == |vs|
  {
    if vs == [] then [] else [ItemToJson(vs[0])] + ItemsToJson(vs[1..])
  }

  /** Keeping the strings of an all-string array gives the strings back. */
  lemma {:induction false} StringsRoundTrip(ss: seq<string>)
    ensures StringsOnly(StringsToJson(ss)) == ss
  {
    if ss != [] {
      assert StringsToJson(ss)[1..] == StringsToJson(ss[1..]);
      StringsRoundTrip(ss[1..]);
    }
  }

  /** Writing an optional field and reading it back: that field gives what was written, the others are untouched. */
  lemma PutStringReads(m: map<string, JsonValue>, name: string, o: Option<string>, k: string)
    requires name !in m
    ensures k == name ==> StringField(PutString(m, name, o), k) == o
    ensures k != name ==> StringField(PutString(m, name, o), k) == StringField(m, k)
    ensures k != name ==> (k in PutString(m, name, o) <==> k in m)
    ensures k != name && k in m ==> PutString(m, name, o)[k] == m[k]
  {
  }

  /** Each field of a written item reads back as the item's own field. */
  lemma ItemFieldsRead(v: VocabItem)
    requires ValidItem(v)
    ensures HasWord(ItemToJson(v)) && ItemToJson(v).fields["word"] == JStr(v.word)
    ensures StringField(ItemToJson(v).fields, "pronunciation") == v.pronunciation
    ensures StringField(ItemToJson(v).fields, "meaningEn") == v.meaningEn
    ensures StringField(ItemToJson(v).fields, "meaningVi") == v.meaningVi
    ensures StringField(ItemToJson(v).fields, "example") == v.example
    ensures SynonymsField(ItemToJson(v).fields) == v.synonyms
  {
    var m0 := map["word" := JStr(v.word)];
    var m1 := PutString(m0, "pronunciation", v.pronunciation);
    var m2 := PutString(m1, "meaningEn", v.meaningEn);
    var m3 := PutString(m2, "meaningVi", v.meaningVi);
    var m4 := if v.synonyms.Some? then m3["synonyms" := JArr(StringsToJson(v.synonyms.value))] else m3;
    var f := PutString(m4, "example", v.example);
    assert ItemToJson(v).fields == f;
    assert "meaningEn"[7] != "meaningVi"[7];
    PutStringReads(m0, "pronunciation", v.pronunciation, "word");
    PutStringReads(m1, "meaningEn", v.meaningEn, "word");
    PutStringReads(m1, "meaningEn", v.meaningEn, "pronunciation");
    PutStringReads(m2, "meaningVi", v.meaningVi, "word");
    PutStringReads(m2, "meaningVi", v.meaningVi, "pronunciation");
    PutStringReads(m2, "meaningVi", v.meaningVi, "meaningEn");
    PutStringReads(m4, "example", v.example, "word");
    PutStringReads(m4, "example", v.example, "pronunciation");
    PutStringReads(m4, "example", v.example, "meaningEn");
    PutStringReads(m4, "example", v.example, "meaningVi");
    PutStringReads(m4, "example", v.example, "synonyms");
    PutStringReads(m4, "example", v.example, "example");
    if v.synonyms.Some? {
      StringsRoundTrip(v.synonyms.value);
    }
  }

  /** A valid item survives being written and validated again, field for field. */
  lemma ItemRoundTrip(v: VocabItem)
    requires ValidItem(v)
    ensures ToVocabItem(ItemToJson(v)) == Some(v)
  {
    ItemFieldsRead(v);
  }

  /** Normalising the written form of valid items gives the same items in the same order. */
  lemma {:induction false} NormalizeRoundTrip(vs: seq<VocabItem>)
    requires forall i :: 0 <= i < |vs| ==> ValidItem(vs[i])
    ensures NormalizeArray(JArr(ItemsToJson(vs))) == vs
  {
    if vs != [] {
      var js := ItemsToJson(vs);
      assert js[1..] == ItemsToJson(vs[1..]);
      ItemRoundTrip(vs[0]);
      NormalizeRoundTrip(vs[1..]);
    }
  }

  /** `normalizeArray` is idempotent: normalising an already-normalised list changes nothing. */
  lemma NormalizeIdempotent(input: JsonValue)
    ensures NormalizeArray(JArr(ItemsToJson(NormalizeArray(input)))) == NormalizeArray(input)
  {
    NormalizeRoundTrip(NormalizeArray(input));
  }

  // ---- Day numbers in file names ----

  predicate IsDigit(c: char) {
    '0' <= c <= '9'
  }

  predicate AllDigits(s: string) {
    forall i :: 0 <= i < |s| ==> IsDigit(s[i])
  }

  /** ASCII case folding, as the `i` flag applies it to the letters of the day-file pattern. */
  function LowerAscii(c: char): char {
    if 'A' <= c <= 'Z' then (c as int + 32) as char else c
  }

  predicate EqualsIgnoreCase(s: string, t: string) {
    |s| == |t| && forall i :: 0 <= i < |s| ==> LowerAscii(s[i]) == LowerAscii(t[i])
  }

  /** `/^day-(\d+)\.json$/i`: the prefix, at least one digit, and the suffix, ignoring case. */
  predicate MatchesDayPattern(name: string) {
    |name| >= 10
    && EqualsIgnoreCase(name[..4], "day-")
    && EqualsIgnoreCase(name[|name| - 5..], ".json")
    && AllDigits(name[4..|name| - 5])
  }

  /** The value of a string of decimal digits (`parseInt(s, 10)`), leading zeros allowed. */
  function DigitsValue(s: string): nat
    requires AllDigits(s)
  {
    if s == [] then 0 else DigitsValue(s[..|s| - 1]) * 10 + (s[|s| - 1] as int - '0' as int)
  }

  function DigitChar(d: nat): char
    requires d < 10
  {
    ('0' as int + d) as char
  }

  /** The decimal text of a number, as a template literal renders an integer. */
  function NatToString(n: nat): (s: string)
    ensures |s| >= 1 && AllDigits(s)
    ensures n == 0 <==> s == "0"
    ensures n > 0 ==> s[0] != '0'
  {
    if n < 10 then [DigitChar(n)] else NatToString(n / 10) + [DigitChar(n % 10)]
  }

  /** Reading back the decimal text of a number gives the number. */
  lemma {:induction false} DigitsOfNatToString(n: nat)
    ensures DigitsValue(NatToString(n)) == n
  {
    if n >= 10 {
      var s := NatToString(n);
      assert s[..|s| - 1] == NatToString(n / 10);
      DigitsOfNatToString(n / 10);
    }
  }

  /** `parseDayNumber`: the number in a day-file name, or `None` (the source's `null`). */
  function ParseDayNumber(name: string): (r: Option<nat>)
    ensures r.Some? <==> MatchesDayPattern(name)
  {
    if MatchesDayPattern(name) then Some(DigitsValue(name[4..|name| - 5])) else None
  }

  /** The canonical file name `day-<n>.json`. */
  function DayFileName(n: nat): string {
    "day-" + NatToString(n) + ".json"
  }

  /** Every canonical name parses back to its own number. */
  lemma ParseDayFileName(n: nat)
    ensures ParseDayNumber(DayFileName(n)) == Some(n)
  {
    var name := DayFileName(n);
    var digits := NatToString(n);
    assert name[..4] == "day-";
    assert name[|name| - 5..] == ".json";
    assert name[4..|name| - 5] == digits;
    DigitsOfNatToString(n);
  }

  /** A non-zero leading digit makes the value positive. */
  lemma {:induction false} LeadingDigitPositive(t: string)
    requires |t| >= 1 && AllDigits(t) && t[0] != '0'
    ensures DigitsValue(t) >= 1
  {
    if |t| > 1 {
      assert t[..|t| - 1][0] == t[0];
      LeadingDigitPositive(t[..|t| - 1]);
    }
  }

  /**
   * `NatToString` is the only digit string without a leading zero (other than `"0"` itself) that
   * reads as `n`: it is exactly the text `${n}` renders.
   */
  lemma {:induction false} NatToStringCanonical(t: string, n: nat)
    requires |t| >= 1 && AllDigits(t) && (t[0] != '0' || t == "0")
    requires DigitsValue(t) == n
    ensures t == NatToString(n)
  {
    var d := t[|t| - 1] as int - '0' as int;
    if |t| == 1 {
      assert t[..0] == [];
      assert n == d && n < 10;
      assert DigitChar(n) == t[0];
    } else {
      var init := t[..|t| - 1];
      assert init[0] == t[0];
      assert t[0] != '0';
      LeadingDigitPositive(init);
      assert n == DigitsValue(init) * 10 + d && 0 <= d < 10;
      assert n / 10 == DigitsValue(init) && n % 10 == d;
      NatToStringCanonical(init, n / 10);
      assert DigitChar(n % 10) == t[|t| - 1];
      assert t == init + [t[|t| - 1]];
    }
  }

  /** Leading zeros add nothing to the value. */
  lemma {:induction false} DigitsValueZeros(z: string, t: string)
    requires AllDigits(z) && AllDigits(t)
    requires forall i :: 0 <= i < |z| ==> z[i] == '0'
    ensures AllDigits(z + t) && DigitsValue(z + t) == DigitsValue(t)
  {
    if t == [] {
      assert z + t == z;
      if z != [] {
        assert z[..|z| - 1] + [] == z[..|z| - 1];
        DigitsValueZeros(z[..|z| - 1], []);
      }
    } else {
      assert (z + t)[..|z + t| - 1] == z + t[..|t| - 1];
      DigitsValueZeros(z, t[..|t| - 1]);
    }
  }

  /** The pattern ignores case: names equal up to ASCII case parse to the same day number. */
  lemma ParseIgnoresCase(a: string, b: string)
    requires EqualsIgnoreCase(a, b)
    ensures ParseDayNumber(a) == ParseDayNumber(b)
  {
    if |a| >= 10 {
      assert EqualsIgnoreCase(a[..4], "day-") <==> EqualsIgnoreCase(b[..4], "day-") by {
        assert forall i :: 0 <= i < 4 ==> LowerAscii(a[..4][i]) == LowerAscii(b[..4][i]);
      }
      var sa, sb := a[|a| - 5..], b[|b| - 5..];
      assert EqualsIgnoreCase(sa, ".json") <==> EqualsIgnoreCase(sb, ".json") by {
        assert forall i :: 0 <= i < 5 ==> LowerAscii(sa[i]) == LowerAscii(sb[i]);
      }
      var da, db := a[4..|a| - 5], b[4..|b| - 5];
      assert forall i :: 0 <= i < |da| ==> LowerAscii(da[i]) == LowerAscii(db[i]);
      if AllDigits(da) {
        assert da == db;
      }
      if AllDigits(db) {
        assert da == db;
      }
    }
  }

  /** The pattern ignores leading zeros: `day-<zeros><n>.json` is day n. */
  lemma ParseIgnoresLeadingZeros(z: string, n: nat)
    requires forall i :: 0 <= i < |z| ==> z[i] == '0'
    ensures ParseDayNumber("day-" + z + NatToString(n) + ".json") == Some(n)
  {
    var digits := z + NatToString(n);
    var name := "day-" + z + NatToString(n) + ".json";
    assert name == "day-" + digits + ".json";
    assert name[..4] == "day-";
    assert name[|name| - 5..] == ".json";
    assert name[4..|name| - 5] == digits;
    DigitsValueZeros(z, NatToString(n));
    DigitsOfNatToString(n);
  }
}

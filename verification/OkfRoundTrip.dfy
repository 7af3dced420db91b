/** What Marshal prints and the loader reads back: exactly which metadata survives (memory/okf/write.go, bundle.go). */
module OkfRoundTrip {
  import opened Common
  import opened Text
  import opened OkfText
  import opened OkfValues
  import opened OkfLoader

  // ---- One entry at a time ----

  lemma {:induction false} LinesAppend(a: seq<Entry>, b: seq<Entry>)
    requires AreLines(a) && AreLines(b)
    ensures AreLines(a + b)
  {
  }

  lemma {:induction false} DoublingAddsNoBreak(v: string)
    requires '\n' !in v
    ensures '\n' !in DoubleApostrophes(v)
  {
    if |v| > 0 { DoublingAddsNoBreak(v[1..]); }
  }

  /** A scalar without line breaks makes at most one line, and it says the scalar exactly when that is readable. */
  lemma {:induction false} ScalarLine(key: string, v: string)
    requires IsBareKey(key) && '\n' !in v
    ensures AreLines(ScalarEntries(key, v))
    ensures
      var own := Table(ScalarEntries(key, v));
      && (forall k :: k in own <==> v != "" && k == key)
      && (key in own ==> own[key].Str?)
      && (AsString(own, key) == v <==> v == "" || Readable(v))
      && (AsString(own, key) == "" <==> v == "" || (!NeedsQuote(v) && TrimSpace(v) == ""))
  {
    TableOfOne(Entry(key, if v == "" then "" else YamlScalar(v)));
    if v != "" {
      DoublingAddsNoBreak(v);
      ScalarReadsBack(v);
      ScalarStaysScalar(v);
      hide NeedsQuote, Readable, ParseValue, TrimSpace, Table, DoubleApostrophes;
    }
  }

  lemma {:induction false} PrintedListLine(key: string, items: seq<string>)
    requires IsBareKey(key) && |items| > 0 && AreCommaFree(items)
    requires forall i :: 0 <= i < |items| ==> Trimmed(items[i]) && '\n' !in items[i]
    ensures AreLines([Entry(key, PrintedList(items))])
    ensures Table([Entry(key, PrintedList(items))]) == map[key := List(CoerceAll(items))]
  {
    hide CoerceAll, Table, IsBareKey, ParseInlineList, AreCommaFree, JoinWith;
    var e := Entry(key, PrintedList(items));
    ListParses(items);
    ListIsNotBlank(items);
    TableOfOne(e);
    assert '\n' !in e.printed && TrimSpace(e.printed) == e.printed by {
      assert e.printed[0] == '[' && e.printed[|e.printed| - 1] == ']';
      JoinAvoids(items, ", ", '\n');
      TrimmedStays(e.printed);
    }
    hide TrimSpace;
    assert IsLine(e) && e.printed != "";
  }

  /** Tags without line breaks make at most one line, and it says them exactly when they are readable. */
  lemma {:induction false} TagLine(v: string)
    requires '\n' !in v
    ensures AreLines(TagEntries(v))
    ensures
      var own := Table(TagEntries(v));
      && (forall k :: k in own ==> k == "tags")
      && (JoinWith(AsList(own, "tags"), ",") == v <==> AreReadableTags(v))
  {
    var items := SplitCSV(v);
    assert IsBareKey("tags");
    SplitCsvShape(v);
    TagsReadBack(v);
    hide TrimSpace, CoerceAll, SplitCSV, Table, JoinWith, PrintedList, IsBareKey, IsLine, AreReadableTags;
    if |items| > 0 {
      PrintedListLine("tags", items);
    } else {
      TableOfOne(Entry("", ""));
      assert TagsRead(v) == [] by { EmptyCoerces(); }
    }
  }

  lemma {:induction false} EmptyCoerces()
    ensures CoerceAll([]) == []
  {
  }

  /** An extension value that survives: an inline list of items the parser keeps, or a readable scalar. */
  ghost predicate IsReadableExtra(v: string)
  {
    && '\n' !in v
    && if IsInlineList(v) then exists items :: AreKept(items) && v == PrintedList(items) else Readable(v)
  }

  /** An extension value without line breaks makes a line unless it is empty, and it says the value exactly when that is readable. */
  lemma {:induction false} ExtraLine(key: string, v: string)
    requires v == "" || (IsBareKey(key) && '\n' !in v)
    ensures AreLines(ExtraEntries(key, v))
    ensures
      var own := Table(ExtraEntries(key, v));
      && (forall k :: k in own <==> v != "" && k == key)
      && (key in own && EncodeExtra(own[key]) == v <==> IsReadableExtra(v))
  {
    if IsInlineList(v) {
      ListReadsBack(v);
      assert Trimmed(v);
      TrimmedStays(v);
      TableOfOne(Entry(key, v));
    } else if v != "" {
      ScalarLine(key, v);
    } else {
      TableOfOne(Entry("", ""));
    }
  }

  // ---- All entries ----

  /** Every value makes one line of its own: no line breaks, and extension keys that are bare and not standard. */
  ghost predicate IsOneLined(meta: map<string, string>)
  {
    && (forall f :: f in STANDARD ==> '\n' !in Get(meta, f))
    && (forall k :: EXTRA + k in meta && meta[EXTRA + k] != "" ==>
          IsBareKey(k) && k !in STANDARD && '\n' !in meta[EXTRA + k])
  }

  /** The one or no line of a standard field. */
  function FieldEntries(meta: map<string, string>, f: string): seq<Entry>
  {
    if f == "tags" then TagEntries(Get(meta, f)) else ScalarEntries(f, Get(meta, f))
  }

  /** What the line of a standard field says of it, in a document of one-line values. */
  ghost predicate FieldSaid(own: map<string, Value>, meta: map<string, string>, f: string)
  {
    var v := Get(meta, f);
    && (forall k :: k in own ==> k == f)
    && (f == "tags" ==> (JoinWith(AsList(own, f), ",") == v <==> AreReadableTags(v)))
    && (f != "tags" ==> (AsString(own, f) == v <==> v == "" || Readable(v)))
    && (f != "tags" ==> (AsString(own, f) == "" <==> v == "" || (!NeedsQuote(v) && TrimSpace(v) == "")))
  }

  lemma {:induction false} FieldLine(meta: map<string, string>, f: string)
    requires IsOneLined(meta) && f in STANDARD
    ensures AreLines(FieldEntries(meta, f)) && FieldSaid(Table(FieldEntries(meta, f)), meta, f)
  {
    hide Readable, NeedsQuote, TrimSpace, AsString, AsList, JoinWith;
    if f == "tags" {
      TagLine(Get(meta, f));
    } else {
      BareKeys();
      ScalarLine(f, Get(meta, f));
    }
  }

  lemma {:induction false} BareKeys()
    ensures forall f :: f in STANDARD ==> IsBareKey(f)
  {
  }

  const FIELDS := ["type", "title", "description", "tags", "resource", "timestamp"]

  function FieldsUpTo(meta: map<string, string>, n: nat): seq<Entry>
    requires n <= |FIELDS|
  {
    if n == 0 then [] else FieldsUpTo(meta, n - 1) + FieldEntries(meta, FIELDS[n - 1])
  }

  lemma {:induction false} StandardIsAllFields(meta: map<string, string>)
    ensures StandardEntries(meta) == FieldsUpTo(meta, 6)
  {
    hide ScalarEntries, TagEntries, Get;
    assert FieldsUpTo(meta, 1) == FieldEntries(meta, "type");
    assert FieldsUpTo(meta, 2) == FieldsUpTo(meta, 1) + FieldEntries(meta, "title");
    assert FieldsUpTo(meta, 3) == FieldsUpTo(meta, 2) + FieldEntries(meta, "description");
    assert FieldsUpTo(meta, 4) == FieldsUpTo(meta, 3) + FieldEntries(meta, "tags");
    assert FieldsUpTo(meta, 5) == FieldsUpTo(meta, 4) + FieldEntries(meta, "resource");
  }

  lemma {:induction false} FieldIsAlone(meta: map<string, string>, f: string, k: string)
    requires IsOneLined(meta) && f in STANDARD
    ensures AreLines(FieldEntries(meta, f)) && (k in Table(FieldEntries(meta, f)) ==> k == f)
  {
    hide FieldEntries, AreLines, AsList, AsString, JoinWith, Readable, NeedsQuote, TrimSpace, Table;
    FieldLine(meta, f);
  }

  /** In the standard lines each field has the value of its own line, and no other key has any. */
  lemma {:induction false} FieldsTable(meta: map<string, string>, n: nat, k: string)
    requires IsOneLined(meta) && n <= |FIELDS|
    ensures AreLines(FieldsUpTo(meta, n))
    ensures
      var own := Table(FieldEntries(meta, k));
      k in Table(FieldsUpTo(meta, n)) <==> k in FIELDS[..n] && k in own
    ensures k in Table(FieldsUpTo(meta, n)) ==> Table(FieldsUpTo(meta, n))[k] == Table(FieldEntries(meta, k))[k]
  {
    hide FieldEntries, IsOneLined, AreLines;
    TableOfOne(Entry("", ""));
    if n > 0 {
      var f, front := FIELDS[n - 1], FieldsUpTo(meta, n - 1);
      var last := FieldEntries(meta, f);
      assert FieldsUpTo(meta, n) == front + last;
      assert k in FIELDS[..n] <==> k in FIELDS[..n - 1] || k == f;
      FieldsTable(meta, n - 1, k);
      FieldIsAlone(meta, f, k);
      hide Table, FieldsUpTo;
      LinesAppend(front, last);
      TableOfAppend(front, last, k);
    } else {
      assert AreLines([]) by { NoLines(); }
    }
  }

  lemma {:induction false} NoLines()
    ensures AreLines([])
  {
  }

  /** In the extension lines each listed key that has a value has its own line's, and no other key has any. */
  lemma {:induction false} ExtrasTable(meta: map<string, string>, keys: seq<string>, k: string)
    requires IsOneLined(meta) && forall x :: x in keys ==> EXTRA + x in meta
    ensures AreLines(AllExtras(meta, keys))
    ensures k in Table(AllExtras(meta, keys)) <==> k in keys && meta[EXTRA + k] != ""
    ensures k in Table(AllExtras(meta, keys)) ==>
      var own := Table(ExtraEntries(k, meta[EXTRA + k]));
      k in own && Table(AllExtras(meta, keys))[k] == own[k]
  {
    TableOfOne(Entry("", ""));
    if |keys| > 0 {
      var n := |keys| - 1;
      var key := keys[n];
      assert keys == keys[..n] + [key];
      ExtrasTable(meta, keys[..n], k);
      assert EXTRA + key in meta;
      ExtraLine(key, meta[EXTRA + key]);
      hide IsOneLined, AreLines, ExtraEntries, EncodeExtra, IsReadableExtra;
      LinesAppend(AllExtras(meta, keys[..n]), ExtraEntries(key, meta[EXTRA + key]));
      TableOfAppend(AllExtras(meta, keys[..n]), ExtraEntries(key, meta[EXTRA + key]), k);
      hide Table;
    }
  }

  lemma {:induction false} EntriesAreLines(meta: map<string, string>, keys: seq<string>)
    requires IsOneLined(meta) && AreExtraKeys(meta, keys)
    ensures AreLines(Entries(meta, keys))
  {
    hide IsOneLined, AreLines, Table;
    StandardIsAllFields(meta);
    FieldsTable(meta, 6, "");
    ExtrasTable(meta, keys, "");
    LinesAppend(StandardEntries(meta), AllExtras(meta, keys));
  }

  /** Among all lines, a standard field has the value of its own line. */
  lemma {:induction false} FieldInTable(meta: map<string, string>, keys: seq<string>, f: string)
    requires IsOneLined(meta) && AreExtraKeys(meta, keys) && f in STANDARD
    ensures
      var out, own := Table(Entries(meta, keys)), Table(FieldEntries(meta, f));
      AsString(out, f) == AsString(own, f) && AsList(out, f) == AsList(own, f)
  {
    var own := Table(FieldEntries(meta, f));
    assert f in keys ==> meta[EXTRA + f] == "";
    hide IsOneLined, AreLines, Table, AreExtraKeys, SplitCSV, JoinWith, EncodeExtra, FieldEntries;
    StandardIsAllFields(meta);
    FieldsTable(meta, 6, f);
    assert FIELDS[..6] == FIELDS && f in FIELDS;
    ExtrasTable(meta, keys, f);
    TableOfAppend(StandardEntries(meta), AllExtras(meta, keys), f);
    hide StandardEntries, AllExtras, FieldsUpTo;
    SameReadings(Table(Entries(meta, keys)), own, f);
  }

  lemma {:induction false} SameReadings(out: map<string, Value>, own: map<string, Value>, f: string)
    requires (f in out <==> f in own) && (f in out ==> out[f] == own[f])
    ensures AsString(out, f) == AsString(own, f) && AsList(out, f) == AsList(own, f)
  {
  }

  /** Among all lines, exactly the extension keys with a value are no standard fields, each with its own line's value. */
  lemma {:induction false} ExtraInTable(meta: map<string, string>, keys: seq<string>, k: string)
    requires IsOneLined(meta) && AreExtraKeys(meta, keys) && k !in STANDARD
    ensures k in Table(Entries(meta, keys)) <==> EXTRA + k in meta && meta[EXTRA + k] != ""
    ensures k in Table(Entries(meta, keys)) ==>
      var own := Table(ExtraEntries(k, meta[EXTRA + k]));
      k in own && Table(Entries(meta, keys))[k] == own[k]
  {
    hide IsOneLined, AreLines, Table, SplitCSV, JoinWith, EncodeExtra, FieldEntries, ExtraEntries;
    StandardIsAllFields(meta);
    FieldsTable(meta, 6, k);
    assert FIELDS[..6] == FIELDS && k !in FIELDS;
    ExtrasTable(meta, keys, k);
    TableOfAppend(StandardEntries(meta), AllExtras(meta, keys), k);
  }

  /** The parser's view of a printed document. */
  lemma {:induction false} PrintIsParsed(doc: Document, keys: seq<string>)
    requires IsOneLined(doc.meta) && AreExtraKeys(doc.meta, keys)
    ensures Parse(TakeApart(Print(doc, keys)).fm) == Table(Entries(doc.meta, keys))
    ensures TakeApart(Print(doc, keys)).body == TrimNewlines(doc.text) + "\n"
  {
    var entries := Entries(doc.meta, keys);
    EntriesAreLines(doc.meta, keys);
    hide Table, Entries, Parse, TakeApart, Opened, AreLines;
    PrintedTakenApart(entries, TrimNewlines(doc.text));
    ParsePrinted(entries);
  }

  // ---- What a document gets back ----

  /** A standard scalar field that survives. */
  predicate IsReadableField(v: string) { '\n' !in v && (v == "" || Readable(v)) }

  /** A title that survives: readable and not empty, or blank and what the loader falls back to. */
  predicate IsReadableTitle(v: string, id: string)
  {
    (v != "" && IsReadableField(v)) || (v == LastSegment(id) && TrimSpace(v) == "")
  }

  ghost predicate IsReadableStandard(meta: map<string, string>, id: string, f: string)
  {
    if f == "title" then IsReadableTitle(Get(meta, f), id)
    else if f == "tags" then AreReadableTags(Get(meta, f))
    else IsReadableField(Get(meta, f))
  }

  lemma {:induction false} OneLineFieldReadsBack(doc: Document, keys: seq<string>, id: string, outlinks: string,
    r: Document, f: string)
    requires IsOneLined(doc.meta) && AreExtraKeys(doc.meta, keys) && f in STANDARD
    requires IsLoaded(Print(doc, keys), id, outlinks, r)
    ensures Get(r.meta, f) == Get(doc.meta, f) <==> IsReadableStandard(doc.meta, id, f)
  {
    var out, v := Table(Entries(doc.meta, keys)), Get(doc.meta, f);
    assert '\n' !in v;
    FieldLine(doc.meta, f);
    hide IsConceptMeta, IsOneLined, AreExtraKeys, Table, Entries, Parse, TakeApart, Print, TrimNewlines, AsString, AsList, FieldEntries;
    PrintIsParsed(doc, keys);
    FieldInTable(doc.meta, keys, f);
    LoadedField(out, id, outlinks, r.meta, f);
    hide LastSegment, JoinWith, AreReadableTags, Get;
    if f == "title" && v != "" { BlankOrQuoted(v); }
  }

  /** White space that needs quotes is readable. */
  lemma {:induction false} BlankOrQuoted(v: string)
    requires v != ""
    ensures NeedsQuote(v) && TrimSpace(v) == "" ==> Readable(v)
    ensures Readable(v) && TrimSpace(v) == "" ==> NeedsQuote(v)
  {
    TrimmedStays(v);
    if '\'' in v { VisibleStays(v, '\''); }
  }

  lemma {:induction false} OneLineExtraReadsBack(doc: Document, keys: seq<string>, id: string, outlinks: string,
    r: Document, k: string)
    requires IsOneLined(doc.meta) && AreExtraKeys(doc.meta, keys) && IsLoaded(Print(doc, keys), id, outlinks, r)
    ensures EXTRA + k in r.meta <==> EXTRA + k in doc.meta && doc.meta[EXTRA + k] != ""
    ensures EXTRA + k in r.meta ==> (r.meta[EXTRA + k] == doc.meta[EXTRA + k] <==> IsReadableExtra(doc.meta[EXTRA + k]))
  {
    hide Table, Entries, Parse, TakeApart, Print, TrimNewlines, IsConceptMeta, EncodeExtra, ExtraEntries, IsReadableExtra, AreExtraKeys, IsBareKey;
    PrintIsParsed(doc, keys);
    LoadedExtra(Table(Entries(doc.meta, keys)), id, outlinks, r.meta, k);
    if EXTRA + k in doc.meta { ExtraLine(k, doc.meta[EXTRA + k]); }
    hide IsOneLined, AreLines;
    if k !in STANDARD { ExtraInTable(doc.meta, keys, k); }
  }

  // ---- Whole documents ----

  /** Every value but that of `name` makes one line of its own. */
  ghost predicate IsOneLinedBut(meta: map<string, string>, name: string)
  {
    && (forall f :: f in STANDARD && f != name ==> '\n' !in Get(meta, f))
    && (forall k :: EXTRA + k in meta && EXTRA + k != name && meta[EXTRA + k] != "" ==>
          IsBareKey(k) && k !in STANDARD && '\n' !in meta[EXTRA + k])
  }

  lemma {:induction false} ExtraIsNoField(k: string)
    ensures EXTRA + k !in STANDARD
  {
    assert (EXTRA + k)[2] == '.';
  }

  lemma {:induction false} ExtraKeysDiffer(k: string, l: string)
    ensures EXTRA + k == EXTRA + l ==> k == l
  {
    assert (EXTRA + k)[|EXTRA|..] == k && (EXTRA + l)[|EXTRA|..] == l;
  }

  /** A standard field comes back from print and load as it was exactly when it is readable. */
  lemma {:induction false} FieldReadsBackExactly(doc: Document, b: string, id: string, outlinks: string, r: Document,
    f: string)
    requires IsMarshalled(doc, b) && IsLoaded(b, id, outlinks, r)
    requires '\n' !in id && f in STANDARD && IsOneLinedBut(doc.meta, f)
    ensures Get(r.meta, f) == Get(doc.meta, f) <==> IsReadableStandard(doc.meta, id, f)
  {
    hide IsLoaded, AreExtraKeys, Print, Readable;
    var keys :| AreExtraKeys(doc.meta, keys) && b == Print(doc, keys);
    LoadedFieldIsClean(b, id, outlinks, r, f);
    LastSegmentCharacters(id, '\n');
    if '\n' !in Get(doc.meta, f) {
      forall k ensures EXTRA + k != f { ExtraIsNoField(k); }
      OneLineFieldReadsBack(doc, keys, id, outlinks, r, f);
    }
  }

  /** An extension that survives: its key is one the parser and the loader take for one, and its value is readable. */
  ghost predicate IsPrintableExtra(k: string, v: string) { IsBareKey(k) && k !in STANDARD && IsReadableExtra(v) }

  /** An extension comes back as it was exactly when its key is bare and not standard and its value is readable. */
  lemma {:induction false} ExtraReadsBackExactly(doc: Document, b: string, id: string, outlinks: string, r: Document,
    k: string)
    requires IsMarshalled(doc, b) && IsLoaded(b, id, outlinks, r)
    requires EXTRA + k in doc.meta && IsOneLinedBut(doc.meta, EXTRA + k)
    ensures EXTRA + k in r.meta && r.meta[EXTRA + k] == doc.meta[EXTRA + k] <==>
      IsPrintableExtra(k, doc.meta[EXTRA + k])
  {
    hide IsLoaded, AreExtraKeys, Print, Readable, IsInlineList, AreKept, IsBareKey;
    var keys :| AreExtraKeys(doc.meta, keys) && b == Print(doc, keys);
    var v := doc.meta[EXTRA + k];
    if EXTRA + k in r.meta { LoadedExtraIsClean(b, id, outlinks, r, k); }
    if v == "" || (IsBareKey(k) && k !in STANDARD && '\n' !in v) {
      ExtraIsNoField(k);
      forall l | EXTRA + l == EXTRA + k ensures l == k { ExtraKeysDiffer(k, l); }
      OneLineExtraReadsBack(doc, keys, id, outlinks, r, k);
      EmptyIsNotReadable();
    }
  }

  lemma {:induction false} EmptyIsNotReadable()
    ensures !IsReadableExtra("")
  {
  }

  /** The metadata that survives as a whole. */
  ghost predicate IsPrintable(meta: map<string, string>, id: string)
  {
    && (forall f :: f in STANDARD ==> IsReadableStandard(meta, id, f))
    && (forall k :: EXTRA + k in meta ==> IsPrintableExtra(k, meta[EXTRA + k]))
  }

  /** `r` has the standard fields and exactly the extensions of `doc`. */
  ghost predicate IsAllBack(doc: Document, r: Document)
  {
    && (forall f :: f in STANDARD ==> Get(r.meta, f) == Get(doc.meta, f))
    && (forall k :: EXTRA + k in r.meta <==> EXTRA + k in doc.meta)
    && (forall k :: EXTRA + k in r.meta ==> r.meta[EXTRA + k] == doc.meta[EXTRA + k])
  }

  /** Metadata that survives, empty extensions apart: those are not printed. */
  ghost predicate IsRepeatable(meta: map<string, string>, id: string)
  {
    && (forall f :: f in STANDARD ==> IsReadableStandard(meta, id, f))
    && (forall k :: EXTRA + k in meta && meta[EXTRA + k] != "" ==> IsPrintableExtra(k, meta[EXTRA + k]))
  }

  lemma {:induction false} RepeatableIsOneLined(meta: map<string, string>, id: string)
    requires IsRepeatable(meta, id) && '\n' !in id
    ensures IsOneLined(meta)
  {
    LastSegmentCharacters(id, '\n');
    hide Readable, IsInlineList, AreKept, IsBareKey, Get;
  }

  lemma {:induction false} PrintableIsRepeatable(meta: map<string, string>, id: string)
    ensures IsPrintable(meta, id) <==> IsRepeatable(meta, id) && forall k :: EXTRA + k in meta ==> meta[EXTRA + k] != ""
  {
    EmptyIsNotReadable();
    hide IsReadableStandard, IsReadableExtra, IsBareKey;
  }

  lemma {:induction false} BackIsOneLined(doc: Document, text: string, id: string, outlinks: string, r: Document)
    requires IsLoaded(text, id, outlinks, r) && '\n' !in id && IsAllBack(doc, r)
    ensures IsOneLined(doc.meta)
  {
    hide IsLoaded, Get, IsBareKey;
    forall f | f in STANDARD ensures '\n' !in Get(doc.meta, f) {
      LoadedFieldIsClean(text, id, outlinks, r, f);
    }
    forall k | EXTRA + k in doc.meta ensures IsBareKey(k) && k !in STANDARD && '\n' !in doc.meta[EXTRA + k] {
      LoadedExtraIsClean(text, id, outlinks, r, k);
    }
  }

  /** What is printed of one-lined metadata: each part comes back exactly when it is readable, and empty extensions vanish. */
  lemma {:induction false} OneLinedReadsBack(doc: Document, b: string, id: string, outlinks: string, r: Document)
    requires IsMarshalled(doc, b) && IsLoaded(b, id, outlinks, r) && IsOneLined(doc.meta)
    ensures forall f :: f in STANDARD ==> (Get(r.meta, f) == Get(doc.meta, f) <==> IsReadableStandard(doc.meta, id, f))
    ensures forall k :: EXTRA + k in r.meta <==> EXTRA + k in doc.meta && doc.meta[EXTRA + k] != ""
    ensures forall k :: EXTRA + k in r.meta ==>
      (r.meta[EXTRA + k] == doc.meta[EXTRA + k] <==> IsPrintableExtra(k, doc.meta[EXTRA + k]))
    ensures r.text == TrimNewlines(doc.text) + "\n"
  {
    hide AreExtraKeys, Print, IsReadableExtra, IsBareKey, IsReadableStandard, Get, Parse, TakeApart, IsConceptMeta, TrimNewlines;
    var keys :| AreExtraKeys(doc.meta, keys) && b == Print(doc, keys);
    PrintIsParsed(doc, keys);
    forall f | f in STANDARD
      ensures Get(r.meta, f) == Get(doc.meta, f) <==> IsReadableStandard(doc.meta, id, f)
    {
      OneLineFieldReadsBack(doc, keys, id, outlinks, r, f);
    }
    forall k
      ensures EXTRA + k in r.meta <==> EXTRA + k in doc.meta && doc.meta[EXTRA + k] != ""
      ensures EXTRA + k in r.meta ==>
        (r.meta[EXTRA + k] == doc.meta[EXTRA + k] <==> IsPrintableExtra(k, doc.meta[EXTRA + k]))
    {
      OneLineExtraReadsBack(doc, keys, id, outlinks, r, k);
    }
  }

  /**
   * Loading what Marshal prints gives back every standard field and exactly the extensions if and only if the metadata
   * is printable, and then the body too, up to trailing line breaks.
   */
  lemma {:induction false} RoundTripExactly(doc: Document, b: string, id: string, outlinks: string, r: Document)
    requires IsMarshalled(doc, b) && IsLoaded(b, id, outlinks, r) && '\n' !in id
    ensures IsAllBack(doc, r) <==> IsPrintable(doc.meta, id)
    ensures IsPrintable(doc.meta, id) ==> r.text == TrimNewlines(doc.text) + "\n"
  {
    hide IsMarshalled, IsLoaded, IsReadableStandard, IsPrintableExtra, Get, IsBareKey, TrimNewlines, IsOneLined;
    PrintableIsRepeatable(doc.meta, id);
    if IsAllBack(doc, r) {
      BackIsOneLined(doc, b, id, outlinks, r);
      OneLinedReadsBack(doc, b, id, outlinks, r);
    }
    if IsPrintable(doc.meta, id) {
      RepeatableIsOneLined(doc.meta, id);
      OneLinedReadsBack(doc, b, id, outlinks, r);
    }
  }

  // ---- Printing again ----

  /** The keys that have a value. */
  function WithValue(meta: map<string, string>, keys: seq<string>): seq<string>
  {
    if |keys| == 0 then []
    else
      var key := keys[|keys| - 1];
      WithValue(meta, keys[..|keys| - 1]) + if Get(meta, EXTRA + key) != "" then [key] else []
  }

  lemma {:induction false} WithValueSelects(meta: map<string, string>, keys: seq<string>, k: string)
    ensures k in WithValue(meta, keys) <==> k in keys && Get(meta, EXTRA + k) != ""
  {
    hide Get;
    if |keys| > 0 {
      var n := |keys| - 1;
      WithValueSelects(meta, keys[..n], k);
      assert keys == keys[..n] + [keys[n]];
    }
  }

  lemma {:induction false} WithValueIsSorted(meta: map<string, string>, keys: seq<string>)
    requires SortedBy(StringLess, keys)
    ensures SortedBy(StringLess, WithValue(meta, keys))
  {
    hide Get, StringLess;
    if |keys| > 0 {
      var n := |keys| - 1;
      var front := WithValue(meta, keys[..n]);
      WithValueIsSorted(meta, keys[..n]);
      forall i | 0 <= i < |front| ensures StringLess(front[i], keys[n]) {
        WithValueSelects(meta, keys[..n], front[i]);
        assert front[i] in keys[..n];
      }
    }
  }

  lemma {:induction false} WithValuePrintsTheSame(meta: map<string, string>, keys: seq<string>)
    ensures AllExtras(meta, WithValue(meta, keys)) == AllExtras(meta, keys)
  {
    hide Get, ExtraEntries;
    if |keys| > 0 {
      var n := |keys| - 1;
      var front := WithValue(meta, keys[..n]);
      WithValuePrintsTheSame(meta, keys[..n]);
      if Get(meta, EXTRA + keys[n]) != "" {
        assert (front + [keys[n]])[..|front|] == front;
      } else {
        NoLineOfNothing(keys[n]);
        assert front + [] == front;
      }
    }
  }

  lemma {:induction false} NoLineOfNothing(key: string)
    ensures ExtraEntries(key, "") == []
  {
  }

  /** Printing depends only on the standard fields, the extensions and the body up to trailing line breaks. */
  lemma {:induction false} PrintLooksAt(a: Document, b: Document, keys: seq<string>)
    requires forall f :: f in STANDARD ==> Get(a.meta, f) == Get(b.meta, f)
    requires forall k :: k in keys ==> Get(a.meta, EXTRA + k) == Get(b.meta, EXTRA + k)
    requires TrimNewlines(a.text) == TrimNewlines(b.text)
    ensures Print(a, keys) == Print(b, keys)
  {
    hide ScalarEntries, TagEntries, ExtraEntries, Get, TrimNewlines, Opened;
    ExtrasLookAt(a.meta, b.meta, keys);
    assert StandardEntries(a.meta) == StandardEntries(b.meta);
  }

  lemma {:induction false} ExtrasLookAt(a: map<string, string>, b: map<string, string>, keys: seq<string>)
    requires forall k :: k in keys ==> Get(a, EXTRA + k) == Get(b, EXTRA + k)
    ensures AllExtras(a, keys) == AllExtras(b, keys)
  {
    hide Get, ExtraEntries;
    if |keys| > 0 {
      assert keys[|keys| - 1] in keys;
      ExtrasLookAt(a, b, keys[..|keys| - 1]);
    }
  }

  /** The keys of a loaded document are those of the printed one that have a value. */
  lemma {:induction false} KeysWithValue(a: map<string, string>, b: map<string, string>, keys: seq<string>,
    again: seq<string>)
    requires AreExtraKeys(a, keys) && AreExtraKeys(b, again)
    requires forall k :: EXTRA + k in b <==> EXTRA + k in a && a[EXTRA + k] != ""
    ensures again == WithValue(a, keys)
  {
    hide StringLess, WithValue;
    WithValueIsSorted(a, keys);
    forall k ensures k in WithValue(a, keys) <==> k in again { WithValueSelects(a, keys, k); }
    forall x, y ensures !(StringLess(x, y) && StringLess(y, x)) { StringLessTotal(x, y); }
    SortedIsUnique(StringLess, WithValue(a, keys), again);
  }

  /** Printing, loading and printing again is printing once, also when empty extensions were dropped. */
  lemma {:induction false} PrintLoadPrint(doc: Document, b: string, id: string, outlinks: string, r: Document,
    again: string)
    requires '\n' !in id && IsRepeatable(doc.meta, id)
    requires IsMarshalled(doc, b) && IsLoaded(b, id, outlinks, r) && IsMarshalled(r, again)
    ensures again == b
  {
    hide Print, IsLoaded, IsReadableStandard, IsPrintableExtra, IsOneLined, TrimNewlines, Get, AreExtraKeys;
    var keys :| AreExtraKeys(doc.meta, keys) && b == Print(doc, keys);
    var keys2 :| AreExtraKeys(r.meta, keys2) && again == Print(r, keys2);
    RepeatableIsOneLined(doc.meta, id);
    OneLinedReadsBack(doc, b, id, outlinks, r);
    KeysWithValue(doc.meta, r.meta, keys, keys2);
    TrimNewlinesStays(doc.text);
    WithValuePrintsTheSame(doc.meta, keys);
    SameValues(doc.meta, r.meta, keys2);
    PrintLooksAt(r, doc, keys2);
    SamePrint(doc, keys, keys2);
  }

  lemma {:induction false} SameValues(a: map<string, string>, b: map<string, string>, keys: seq<string>)
    requires AreExtraKeys(b, keys)
    requires forall k :: EXTRA + k in b ==> EXTRA + k in a && b[EXTRA + k] == a[EXTRA + k]
    ensures forall k :: k in keys ==> Get(b, EXTRA + k) == Get(a, EXTRA + k)
  {
    hide StringLess;
  }

  lemma {:induction false} SamePrint(doc: Document, keys: seq<string>, again: seq<string>)
    requires AllExtras(doc.meta, keys) == AllExtras(doc.meta, again)
    ensures Print(doc, keys) == Print(doc, again)
  {
    hide Opened, StandardEntries, AllExtras;
  }

  // ---- What is lost ----

  /** A line break does not survive, in any document. */
  lemma {:induction false} LineBreakIsLost(doc: Document, b: string, id: string, outlinks: string, r: Document,
    f: string)
    requires IsMarshalled(doc, b) && IsLoaded(b, id, outlinks, r) && '\n' !in id
    requires f in STANDARD && '\n' in Get(doc.meta, f)
    ensures Get(r.meta, f) != Get(doc.meta, f)
  {
    LoadedFieldIsClean(b, id, outlinks, r, f);
  }

  /** An apostrophe does not survive in a field that is no tag list. */
  lemma {:induction false} ApostropheIsLost(doc: Document, b: string, id: string, outlinks: string, r: Document,
    f: string)
    requires IsMarshalled(doc, b) && IsLoaded(b, id, outlinks, r) && '\n' !in id && IsOneLinedBut(doc.meta, f)
    requires f in STANDARD && f != "tags" && '\'' in Get(doc.meta, f)
    ensures Get(r.meta, f) != Get(doc.meta, f)
  {
    hide IsMarshalled, IsLoaded, IsOneLinedBut, Get, TrimSpace;
    VisibleStays(Get(doc.meta, f), '\'');
    FieldReadsBackExactly(doc, b, id, outlinks, r, f);
  }

  /** The loader makes an empty extension of a line without a value. */
  lemma {:induction false} EmptyExtensionIsLoaded(k: string, body: string, id: string, outlinks: string, r: Document)
    requires IsBareKey(k) && k !in STANDARD
    requires IsLoaded(Opened([Entry(k, "")]) + DELIM + "\n\n" + body + "\n", id, outlinks, r)
    ensures EXTRA + k in r.meta && r.meta[EXTRA + k] == ""
  {
    var entries := [Entry(k, "")];
    assert IsLine(entries[0]);
    hide IsBareKey, IsLine, Opened, Parse, TakeApart, Table, IsConceptMeta;
    PrintedTakenApart(entries, body);
    ParsePrinted(entries);
    TableOfOne(entries[0]);
    LoadedExtra(Table(entries), id, outlinks, r.meta, k);
  }

  /** An empty extension of a loaded document is gone after printing and loading it again. */
  lemma {:induction false} EmptyExtensionIsLost(text: string, doc: Document, b: string, id: string, outlinks: string,
    r: Document, k: string)
    requires IsLoaded(text, id, outlinks, doc) && IsMarshalled(doc, b) && IsLoaded(b, id, outlinks, r)
    requires '\n' !in id && EXTRA + k in doc.meta && doc.meta[EXTRA + k] == ""
    ensures EXTRA + k !in r.meta
  {
    hide IsLoaded, IsMarshalled, Get, IsReadableStandard, IsPrintableExtra, TrimNewlines;
    BackIsOneLined(doc, text, id, outlinks, doc);
    OneLinedReadsBack(doc, b, id, outlinks, r);
  }

  // ---- Ordinary metadata ----

  /** A word of letters may stand anywhere: as a scalar, as a list item, as an extension. */
  lemma {:induction false} WordsAreReadable(w: string)
    requires |w| > 0 && forall i :: 0 <= i < |w| ==> 'a' <= w[i] <= 'z' || 'A' <= w[i] <= 'Z'
    ensures IsReadableField(w) && IsNormal(w) && IsReadableExtra(w)
  {
  }

  lemma {:induction false} OneExtraKey(k: string)
    ensures EXTRA + k == "fm.env" <==> k == "env"
  {
    var key, env := EXTRA + k, "fm.env";
    assert key[3..] == k && env[3..] == "env";
    assert EXTRA + "env" == env;
  }

  /** Ordinary metadata is printable: a type, a title, two tags and an extension key. */
  lemma {:induction false} OrdinaryMetadataIsPrintable(id: string) returns (meta: map<string, string>)
    ensures IsPrintable(meta, id) && AreExtraKeys(meta, ["env"])
    ensures Get(meta, "title") == "Orders" && Get(meta, "tags") == "sales,raw"
  {
    meta := map["type" := "table", "title" := "Orders", "tags" := "sales,raw", "fm.env" := "prod"];
    WordsAreReadable("table");
    WordsAreReadable("Orders");
    WordsAreReadable("sales");
    WordsAreReadable("raw");
    WordsAreReadable("prod");
    assert IsReadableField("");
    hide IsReadableField, IsNormal, IsReadableExtra, LastSegment, TrimSpace;
    assert AreReadableTags("sales,raw") by {
      var items := ["sales", "raw"];
      assert items[1..] == ["raw"];
      assert JoinWith(items, ",") == "sales" + "," + "raw" == "sales,raw";
      assert AreNormal(items);
    }
    hide AreReadableTags;
    forall k ensures EXTRA + k in meta <==> k == "env" {
      OneExtraKey(k);
      ExtraIsNoField(k);
    }
    assert IsBareKey("env") && "env" !in STANDARD;
  }
}

/** The concept loader (memory/okf/bundle.go:163-213): what it makes of a text, and of a printed one line by line. */
module OkfLoader {
  import opened Text
  import opened OkfText
  import opened OkfValues

  // ---- Lines ----

  /** An entry that makes one line. */
  predicate IsLine(e: Entry) { IsBareKey(e.key) && '\n' !in e.printed }

  predicate AreLines(entries: seq<Entry>) { forall i :: 0 <= i < |entries| ==> IsLine(entries[i]) }

  function LinesOf(entries: seq<Entry>): seq<string> { seq(|entries|, i requires 0 <= i < |entries| => LineOf(entries[i])) }

  /** A text that begins with a bare key and a colon is split there. */
  lemma {:induction false} KeyIsSplitOff(key: string, rest: string)
    requires IsBareKey(key)
    ensures
      var t := key + ":" + rest;
      IndexOf(t, ':') == |key| && t[..|key|] == key && t[|key| + 1..] == rest
  {
    var t := key + ":" + rest;
    assert forall i :: 0 <= i < |key| ==> t[i] == key[i] && IsBareKeyChar(key[i]);
    assert t[|key|] == ':';
  }

  lemma {:induction false} LineShape(e: Entry)
    requires IsLine(e)
    ensures '\n' !in LineOf(e) && !IsSpace(e.key[0]) && IsBareKeyChar(e.key[0])
  {
    assert forall i :: 0 <= i < |e.key| ==> IsBareKeyChar(e.key[i]);
  }

  /** A printed line is read as its key and value, whatever white space stands at the value's edges. */
  lemma {:induction false} GoodLine(e: Entry)
    requires IsLine(e)
    ensures '\n' !in LineOf(e) && |TrimSpace(LineOf(e))| > 0 && IsBareKeyChar(TrimSpace(LineOf(e))[0])
    ensures
      var kv := SplitKeyValue(LineOf(e));
      kv.Some? && kv.value.0 == e.key && TrimSpace(kv.value.1) == TrimSpace(e.printed)
  {
    var w, head := " " + e.printed, e.key + ":";
    LineShape(e);
    assert LineOf(e) == head + w;
    TrimRightStops(head, w);
    TrimOfTrimmed(w);
    TrimIgnoresEdge(e.printed, ' ');
    assert [' '] + e.printed == w;
    KeyIsSplitOff(e.key, TrimRight(w));
    hide IsBareKeyChar, TrimLeft, TrimRight;
    assert TrimSpace(LineOf(e)) == e.key + ":" + TrimRight(w) by { TrimmedFront(head, w); }
    hide TrimSpace, IndexOf;
  }

  lemma {:induction false} TrimmedFront(head: string, w: string)
    requires |head| > 0 && !IsSpace(head[0]) && TrimRight(head + w) == head + TrimRight(w)
    ensures TrimSpace(head + w) == head + TrimRight(w)
  {
  }

  lemma {:induction false} SplitUnlines(entries: seq<Entry>, rest: string)
    requires AreLines(entries)
    ensures SplitOn(Unlines(entries) + rest, '\n') == LinesOf(entries) + SplitOn(rest, '\n')
  {
    hide SplitOn, LineOf, TrimSpace, SplitKeyValue, IsBareKey;
    if |entries| == 0 {
      assert Unlines(entries) + rest == rest;
    } else {
      var n := |entries| - 1;
      var line := LineOf(entries[n]);
      var front := Unlines(entries[..n]);
      GoodLine(entries[n]);
      assert Unlines(entries) == front + line + "\n";
      SplitUnlines(entries[..n], line + "\n" + rest);
      assert LinesOf(entries) == LinesOf(entries[..n]) + [line];
      hide *;
      SplitAtSeparator(line, '\n', rest);
      JoinPrepends(front, line, "\n", rest);
    }
  }

  lemma {:induction false} DelimAt(lines: seq<string>, i: nat, r: nat)
    requires i <= r < |lines| && TrimSpace(lines[r]) == DELIM
    requires forall k :: i <= k < r ==> TrimSpace(lines[k]) != DELIM
    ensures FindDelim(lines, i) == r
    decreases r - i
  {
    if i < r { DelimAt(lines, i + 1, r); }
  }

  /** A printed document is taken apart into its lines and its body. */
  lemma {:induction false} PrintedTakenApart(entries: seq<Entry>, body: string)
    requires AreLines(entries)
    ensures TakeApart(Opened(entries) + DELIM + "\n\n" + body + "\n") == Parts(JoinWith(LinesOf(entries), "\n"), body + "\n", true)
  {
    var text := Opened(entries) + DELIM + "\n\n" + body + "\n";
    var tail := "\n" + body + "\n";
    var n := |entries|;
    var lines := [DELIM] + LinesOf(entries) + [DELIM] + SplitOn(tail, '\n');
    PrintedLines(entries, body);
    hide SplitOn, Opened, Unlines, LineOf;
    forall k | 1 <= k < n + 1 ensures TrimSpace(lines[k]) != DELIM {
      GoodLine(entries[k - 1]);
      assert lines[k] == LineOf(entries[k - 1]);
    }
    TrimmedStays(DELIM);
    hide TrimSpace, Trimmed;
    assert lines[n + 1] == DELIM;
    DelimAt(lines, 1, n + 1);
    assert lines[1..n + 1] == LinesOf(entries);
    assert lines[n + 2..] == SplitOn(tail, '\n');
    JoinOfSplit(tail, '\n');
    assert tail[1..] == body + "\n";
  }

  lemma {:induction false} PrintedLines(entries: seq<Entry>, body: string)
    requires AreLines(entries)
    ensures
      SplitOn(Opened(entries) + DELIM + "\n\n" + body + "\n", '\n') ==
        [DELIM] + LinesOf(entries) + [DELIM] + SplitOn("\n" + body + "\n", '\n')
  {
    var tail := "\n" + body + "\n";
    var inner := Unlines(entries) + (DELIM + "\n" + tail);
    hide SplitOn, Unlines;
    SplitAtSeparator(DELIM, '\n', inner);
    SplitUnlines(entries, DELIM + "\n" + tail);
    SplitAtSeparator(DELIM, '\n', tail);
    assert Opened(entries) + DELIM + "\n\n" + body + "\n" == DELIM + "\n" + inner;
  }

  /** What a list of lines says: the last line of a key counts. */
  function Table(entries: seq<Entry>): map<string, Value>
  {
    if |entries| == 0 then map[]
    else
      var last := entries[|entries| - 1];
      Table(entries[..|entries| - 1])[last.key := ParseValue(TrimSpace(last.printed))]
  }

  lemma {:induction false} ReadGoodLine(st: Reading, e: Entry)
    requires IsLine(e)
    ensures ReadLine(st, LineOf(e)) == Reading(st.out[e.key := ParseValue(TrimSpace(e.printed))], e.key, [])
  {
    GoodLine(e);
    hide TrimSpace, SplitKeyValue, ParseValue, LineOf;
  }

  lemma {:induction false} ReadGoodLines(entries: seq<Entry>)
    requires AreLines(entries)
    ensures ReadLines(LinesOf(entries)).out == Table(entries)
  {
    if |entries| > 0 {
      var n := |entries| - 1;
      ReadGoodLines(entries[..n]);
      assert LinesOf(entries)[..n] == LinesOf(entries[..n]);
      ReadGoodLine(ReadLines(LinesOf(entries[..n])), entries[n]);
    }
  }

  lemma {:induction false} ParsePrinted(entries: seq<Entry>)
    requires AreLines(entries)
    ensures Parse(JoinWith(LinesOf(entries), "\n")) == Table(entries)
  {
    var lines := LinesOf(entries);
    ReadGoodLines(entries);
    if |entries| == 0 {
      assert lines == [] && SplitOn("", '\n') == [""];
      assert [""][..0] == [];
      assert TrimSpace("") == "";
    } else {
      forall l | l in lines ensures '\n' !in l {
        var i :| 0 <= i < |lines| && lines[i] == l;
        GoodLine(entries[i]);
      }
      SplitOfJoin(lines, '\n');
    }
  }

  lemma {:induction false} TableOfAppend(a: seq<Entry>, b: seq<Entry>, key: string)
    ensures key in Table(a + b) <==> key in Table(a) || key in Table(b)
    ensures key in Table(b) ==> Table(a + b)[key] == Table(b)[key]
    ensures key in Table(a) && key !in Table(b) ==> Table(a + b)[key] == Table(a)[key]
  {
    if |b| == 0 {
      assert a + b == a;
    } else {
      TableOfAppend(a, b[..|b| - 1], key);
      assert (a + b)[..|a + b| - 1] == a + b[..|b| - 1];
    }
  }

  lemma {:induction false} TableOfOne(e: Entry)
    ensures Table([e]) == map[e.key := ParseValue(TrimSpace(e.printed))] && Table([]) == map[]
  {
    assert [e][..0] == [];
  }

  // ---- Nothing parsed holds a line break ----

  predicate HasNoBreak(v: Value)
  {
    if v.Str? then '\n' !in v.text else forall i :: 0 <= i < |v.items| ==> '\n' !in v.items[i]
  }

  /** Between lines: keys are bare, and no value holds a line break. */
  predicate ReadsCleanly(st: Reading)
  {
    && (st.curKey == "" || IsBareKey(st.curKey))
    && (forall k :: k in st.out ==> IsBareKey(k) && HasNoBreak(st.out[k]))
    && (forall i :: 0 <= i < |st.block| ==> '\n' !in st.block[i])
  }

  lemma {:induction false} ParsedValueHasNoBreak(v: string)
    requires '\n' !in v
    ensures HasNoBreak(ParseValue(v))
  {
    CoerceShape(v);
    if IsInlineList(v) {
      var inner := TrimSpace(v[1..|v| - 1]);
      TrimShape(v[1..|v| - 1]);
      SplitCharacters(inner, ',');
      var parts := SplitOn(inner, ',');
      forall i | 0 <= i < |parts| ensures '\n' !in Coerce(TrimSpace(parts[i])) {
        TrimShape(parts[i]);
        CoerceShape(TrimSpace(parts[i]));
      }
    }
  }

  lemma {:induction false} CleanKey(st: Reading, key: string, v: Value)
    requires ReadsCleanly(st) && IsBareKey(key) && HasNoBreak(v)
    ensures ReadsCleanly(Reading(st.out[key := v], key, []))
  {
    hide IsBareKey, HasNoBreak;
  }

  lemma {:induction false} CleanItem(st: Reading, item: string)
    requires ReadsCleanly(st) && st.curKey != "" && '\n' !in item
    ensures ReadsCleanly(Reading(st.out[st.curKey := List(st.block + [item])], st.curKey, st.block + [item]))
  {
    hide IsBareKey;
  }

  lemma {:induction false} CleanParts(raw: string)
    requires '\n' !in raw
    ensures |TrimSpace(raw)| >= 2 ==> '\n' !in Coerce(TrimSpace(TrimSpace(raw)[2..]))
    ensures SplitKeyValue(raw).Some? ==>
      var (key, val) := SplitKeyValue(raw).value;
      IsBareKey(key) && HasNoBreak(ParseValue(TrimSpace(val)))
  {
    var line := TrimSpace(raw);
    TrimShape(raw);
    if |line| >= 2 {
      TrimShape(line[2..]);
      CoerceShape(TrimSpace(line[2..]));
    }
    var kv := SplitKeyValue(raw);
    if kv.Some? {
      TrimShape(kv.value.1);
      assert forall c :: c in kv.value.1 ==> c in line;
      ParsedValueHasNoBreak(TrimSpace(kv.value.1));
    }
  }

  lemma {:induction false} CleanLine(st: Reading, raw: string)
    requires ReadsCleanly(st) && '\n' !in raw
    ensures ReadsCleanly(ReadLine(st, raw))
  {
    hide ReadsCleanly, TrimSpace, Coerce, ParseValue, SplitKeyValue, IsBareKey, HasNoBreak;
    CleanParts(raw);
    var line := TrimSpace(raw);
    if line != "" && line[0] != '#' {
      if "- " <= line && st.curKey != "" {
        CleanItem(st, Coerce(TrimSpace(line[2..])));
      } else if SplitKeyValue(raw).Some? {
        var (key, val) := SplitKeyValue(raw).value;
        CleanKey(st, key, ParseValue(TrimSpace(val)));
      }
    }
  }

  lemma {:induction false} CleanLines(lines: seq<string>)
    requires forall i :: 0 <= i < |lines| ==> '\n' !in lines[i]
    ensures ReadsCleanly(ReadLines(lines))
  {
    hide ReadsCleanly, ReadLine;
    if |lines| == 0 {
      assert ReadsCleanly(Reading(map[], "", [])) by { NothingReadIsClean(); }
    } else {
      CleanLines(lines[..|lines| - 1]);
      CleanLine(ReadLines(lines[..|lines| - 1]), lines[|lines| - 1]);
    }
  }

  lemma {:induction false} NothingReadIsClean()
    ensures ReadsCleanly(Reading(map[], "", []))
  {
  }

  /** Whatever the frontmatter: its keys are bare identifiers and its values hold no line break. */
  lemma {:induction false} ParsedIsClean(fm: string)
    ensures forall k :: k in Parse(fm) ==> IsBareKey(k) && HasNoBreak(Parse(fm)[k])
  {
    SplitCharacters(fm, '\n');
    CleanLines(SplitOn(fm, '\n'));
  }

  // ---- The loader ----

  /** A value in the string-keyed metadata: lists keep their inline form. */
  function EncodeExtra(v: Value): string { if v.Str? then v.text else PrintedList(v.items) }

  function AsString(out: map<string, Value>, key: string): string
  {
    if key in out && out[key].Str? then out[key].text else ""
  }

  function AsList(out: map<string, Value>, key: string): seq<string>
  {
    if key !in out then []
    else if out[key].List? then out[key].items
    else if out[key].text == "" then [] else [out[key].text]
  }

  /** What is behind the last slash. */
  function LastSegment(id: string): string
  {
    if |id| == 0 || id[|id| - 1] == '/' then "" else LastSegment(id[..|id| - 1]) + [id[|id| - 1]]
  }

  /** The metadata of a concept's standard fields, its id and its outlinks. */
  function StandardMeta(out: map<string, Value>, id: string, outlinks: string): map<string, string>
  {
    map["type" := AsString(out, "type"),
        "title" := if AsString(out, "title") == "" then LastSegment(id) else AsString(out, "title"),
        "description" := AsString(out, "description"), "tags" := JoinWith(AsList(out, "tags"), ","),
        "resource" := AsString(out, "resource"), "timestamp" := AsString(out, "timestamp"),
        "concept_id" := id, "outlinks" := outlinks]
  }

  /** `meta` is what the loader makes of `out`: the standard fields, and every other key as an extension. */
  ghost predicate IsConceptMeta(out: map<string, Value>, id: string, outlinks: string, meta: map<string, string>)
  {
    var std := StandardMeta(out, id, outlinks);
    && (forall k :: k in std ==> k in meta && meta[k] == std[k])
    && (forall k :: EXTRA + k in meta <==> k in out && k !in STANDARD)
    && (forall k :: k in out && k !in STANDARD ==> meta[EXTRA + k] == EncodeExtra(out[k]))
  }

  lemma {:induction false} ExtrasAreApart(out: map<string, Value>, id: string, outlinks: string)
    ensures forall k :: EXTRA + k !in StandardMeta(out, id, outlinks)
    ensures forall k, l :: EXTRA + k == EXTRA + l ==> k == l
  {
    forall k ensures EXTRA + k !in StandardMeta(out, id, outlinks) {
      assert (EXTRA + k)[2] == '.';
    }
    forall k, l | EXTRA + k == EXTRA + l ensures k == l {
      assert (EXTRA + k)[|EXTRA|..] == k && (EXTRA + l)[|EXTRA|..] == l;
    }
  }

  /** `meta` holds the standard fields, and the extensions among the keys outside `left`. */
  ghost predicate IsPartialMeta(out: map<string, Value>, left: set<string>, std: map<string, string>,
    meta: map<string, string>)
  {
    && (forall k :: k in std ==> k in meta && meta[k] == std[k])
    && (forall k :: EXTRA + k in meta <==> k in out && k !in left && k !in STANDARD)
    && (forall k :: k in out && k !in left && k !in STANDARD ==> meta[EXTRA + k] == EncodeExtra(out[k]))
  }

  lemma {:induction false} MetaStep(out: map<string, Value>, left: set<string>, std: map<string, string>,
    meta: map<string, string>, key: string)
    requires IsPartialMeta(out, left, std, meta) && key in left && key in out
    requires (forall k :: EXTRA + k !in std) && forall k, l :: EXTRA + k == EXTRA + l ==> k == l
    ensures IsPartialMeta(out, left - {key}, std,
      if key in STANDARD then meta else meta[EXTRA + key := EncodeExtra(out[key])])
  {
    hide EncodeExtra;
  }

  /** One concept file: `outlinks` is what the link scanner made of the body. */
  method LoadConcept(text: string, id: string, outlinks: string) returns (doc: Document)
    ensures IsConceptMeta(Parse(TakeApart(text).fm), id, outlinks, doc.meta) && doc.text == TakeApart(text).body
  {
    hide Parse, TakeApart, EncodeExtra, StandardMeta;
    var fm, body, present := SplitFrontmatter(text);
    var out := ParseFrontmatter(fm);
    var meta := StandardMeta(out, id, outlinks);
    ghost var std := meta;
    ExtrasAreApart(out, id, outlinks);
    var left := out.Keys;
    assert IsPartialMeta(out, left, std, meta);
    while left != {}
      invariant left <= out.Keys && IsPartialMeta(out, left, std, meta)
      decreases left
    {
      hide IsPartialMeta;
      var key :| key in left;
      MetaStep(out, left, std, meta, key);
      left := left - {key};
      if key in STANDARD { continue; }
      meta := meta[EXTRA + key := EncodeExtra(out[key])];
    }
    doc := Document(meta, body);
  }

  /** `r` is what the loader makes of `text`. */
  ghost predicate IsLoaded(text: string, id: string, outlinks: string, r: Document)
  {
    IsConceptMeta(Parse(TakeApart(text).fm), id, outlinks, r.meta) && r.text == TakeApart(text).body
  }

  lemma {:induction false} LoadedField(out: map<string, Value>, id: string, outlinks: string,
    meta: map<string, string>, f: string)
    requires IsConceptMeta(out, id, outlinks, meta) && f in STANDARD
    ensures f == "tags" ==> Get(meta, f) == JoinWith(AsList(out, f), ",")
    ensures f == "title" ==> Get(meta, f) == if AsString(out, f) == "" then LastSegment(id) else AsString(out, f)
    ensures f != "tags" && f != "title" ==> Get(meta, f) == AsString(out, f)
  {
    hide JoinWith, AsList, AsString, EncodeExtra, LastSegment;
    assert f in StandardMeta(out, id, outlinks);
  }

  lemma {:induction false} LastSegmentCharacters(id: string, c: char)
    requires c !in id
    ensures c !in LastSegment(id)
  {
    if |id| > 0 && id[|id| - 1] != '/' { LastSegmentCharacters(id[..|id| - 1], c); }
  }

  lemma {:induction false} LoadedExtra(out: map<string, Value>, id: string, outlinks: string,
    meta: map<string, string>, k: string)
    requires IsConceptMeta(out, id, outlinks, meta)
    ensures EXTRA + k in meta <==> k in out && k !in STANDARD
    ensures EXTRA + k in meta ==> meta[EXTRA + k] == EncodeExtra(out[k])
  {
    hide StandardMeta, EncodeExtra;
  }

  /** So no loaded document holds a line break in a standard field or an extension, and its extension keys are bare. */
  lemma {:induction false} LoadedFieldIsClean(text: string, id: string, outlinks: string, r: Document, f: string)
    requires IsLoaded(text, id, outlinks, r) && '\n' !in id && f in STANDARD
    ensures '\n' !in Get(r.meta, f)
  {
    var out := Parse(TakeApart(text).fm);
    ParsedIsClean(TakeApart(text).fm);
    LastSegmentCharacters(id, '\n');
    hide Parse, TakeApart, LastSegment, IsBareKey, IsConceptMeta;
    LoadedField(out, id, outlinks, r.meta, f);
    JoinAvoids(AsList(out, f), ",", '\n');
  }

  lemma {:induction false} LoadedExtraIsClean(text: string, id: string, outlinks: string, r: Document, k: string)
    requires IsLoaded(text, id, outlinks, r) && EXTRA + k in r.meta
    ensures IsBareKey(k) && k !in STANDARD && '\n' !in r.meta[EXTRA + k]
  {
    var out := Parse(TakeApart(text).fm);
    ParsedIsClean(TakeApart(text).fm);
    hide Parse, TakeApart, IsBareKey, IsConceptMeta;
    LoadedExtra(out, id, outlinks, r.meta, k);
    if out[k].List? { JoinAvoids(out[k].items, ", ", '\n'); }
  }
}

/** Concept documents on disk (memory/okf/write.go, frontmatter.go, bundle.go): the frontmatter printer and parser. */
module OkfText {
  import opened Common
  import opened Text

  /** A frontmatter value: a scalar or a list. */
  datatype Value = Str(text: string) | List(items: seq<string>)

  /** A document's metadata and body. */
  datatype Document = Document(meta: map<string, string>, text: string)

  const EXTRA := "fm."
  const DELIM := "---"
  const STANDARD := {"type", "title", "description", "tags", "resource", "timestamp"}

  function Get(meta: map<string, string>, key: string): string { if key in meta then meta[key] else "" }

  // ---- The parser ----

  predicate IsBareKeyChar(c: char) { c == '_' || 'a' <= c <= 'z' || 'A' <= c <= 'Z' || '0' <= c <= '9' }

  predicate IsBareKey(key: string) { |key| > 0 && forall i :: 0 <= i < |key| ==> IsBareKeyChar(key[i]) }

  predicate IsWrapped(v: string, q: char) { |v| >= 2 && v[0] == q && v[|v| - 1] == q }

  /** Strips one pair of surrounding quotes; what is inside stays as it is. */
  function Coerce(v: string): string
  {
    var t := TrimSpace(v);
    if IsWrapped(t, '"') || IsWrapped(t, '\'') then t[1..|t| - 1] else t
  }

  predicate IsInlineList(v: string) { |v| > 0 && v[0] == '[' && v[|v| - 1] == ']' }

  function CoerceAll(parts: seq<string>): seq<string>
  {
    seq(|parts|, i requires 0 <= i < |parts| => Coerce(TrimSpace(parts[i])))
  }

  function ParseInlineList(v: string): seq<string>
    requires IsInlineList(v)
  {
    var inner := TrimSpace(v[1..|v| - 1]);
    if inner == "" then [] else CoerceAll(SplitOn(inner, ','))
  }

  function ParseValue(v: string): Value
  {
    if v == "" then Str("") else if IsInlineList(v) then List(ParseInlineList(v)) else Str(Coerce(v))
  }

  /** `key: value`, split at the first colon, when what is before it is a bare identifier. */
  function SplitKeyValue(raw: string): Option<(string, string)>
  {
    var t := TrimSpace(raw);
    var i := IndexOf(t, ':');
    if i == 0 || i == |t| || !IsBareKey(t[..i]) then None else Some((t[..i], t[i + 1..]))
  }

  /** The parser between lines: what is read so far, the key block items belong to, and those items. */
  datatype Reading = Reading(out: map<string, Value>, curKey: string, block: seq<string>)

  function ReadLine(st: Reading, raw: string): Reading
  {
    var line := TrimSpace(raw);
    if line == "" || line[0] == '#' then st
    else if "- " <= line && st.curKey != "" then
      var block := st.block + [Coerce(TrimSpace(line[2..]))];
      Reading(st.out[st.curKey := List(block)], st.curKey, block)
    else
      match SplitKeyValue(raw)
      case None => st
      case Some((key, val)) => Reading(st.out[key := ParseValue(TrimSpace(val))], key, [])
  }

  function ReadLines(lines: seq<string>): Reading
  {
    if |lines| == 0 then Reading(map[], "", []) else ReadLine(ReadLines(lines[..|lines| - 1]), lines[|lines| - 1])
  }

  function Parse(fm: string): map<string, Value> { ReadLines(SplitOn(fm, '\n')).out }

  method ParseFrontmatter(fm: string) returns (out: map<string, Value>)
    ensures out == Parse(fm)
  {
    hide Coerce, ParseValue, TrimSpace, SplitKeyValue;
    out := map[];
    var curKey, block, haveBlock := "", [], false;
    var lines := SplitOn(fm, '\n');
    var i := 0;
    while i < |lines|
      invariant 0 <= i <= |lines|
      invariant ReadLines(lines[..i]) == Reading(out, curKey, block)
      invariant haveBlock ==> curKey != "" && curKey in out && out[curKey] == List(block)
      invariant !haveBlock ==> block == []
    {
      var raw := lines[i];
      assert lines[..i + 1][..i] == lines[..i];
      i := i + 1;
      var line := TrimSpace(raw);
      if line == "" || line[0] == '#' { continue; }
      if "- " <= line && curKey != "" {
        block := block + [Coerce(TrimSpace(line[2..]))];
        haveBlock := true;
        out := out[curKey := List(block)];
        continue;
      }
      var kv := SplitKeyValue(raw);
      if kv.None? { continue; }
      var (key, val) := kv.value;
      if haveBlock && curKey != "" {
        out := out[curKey := List(block)];
      }
      block, haveBlock := [], false;
      curKey := key;
      out := out[key := ParseValue(TrimSpace(val))];
    }
    assert lines[..i] == lines;
  }

  /** The first line from `i` on that is a delimiter, or the number of lines. */
  function FindDelim(lines: seq<string>, i: nat): (r: nat)
    requires i <= |lines|
    ensures i <= r <= |lines|
    decreases |lines| - i
  {
    if i == |lines| || TrimSpace(lines[i]) == DELIM then i else FindDelim(lines, i + 1)
  }

  /** A text taken apart: its frontmatter and body, or all of it as body when it has no closed frontmatter. */
  datatype Parts = Parts(fm: string, body: string, present: bool)

  function DropNewline(s: string): string { if |s| > 0 && s[0] == '\n' then s[1..] else s }

  function TakeApart(text: string): Parts
  {
    var lines := SplitOn(text, '\n');
    var end := FindDelim(lines, 1);
    if TrimSpace(lines[0]) != DELIM || end == |lines| then Parts("", text, false)
    else Parts(JoinWith(lines[1..end], "\n"), DropNewline(JoinWith(lines[end + 1..], "\n")), true)
  }

  method SplitFrontmatter(text: string) returns (fm: string, body: string, present: bool)
    ensures Parts(fm, body, present) == TakeApart(text)
  {
    hide TrimSpace, SplitOn;
    var lines := SplitOn(text, '\n');
    if TrimSpace(lines[0]) != DELIM {
      return "", text, false;
    }
    var end := -1;
    var i := 1;
    while i < |lines|
      invariant 1 <= i <= |lines| && end == -1
      invariant FindDelim(lines, i) == FindDelim(lines, 1)
    {
      if TrimSpace(lines[i]) == DELIM {
        end := i;
        break;
      }
      i := i + 1;
    }
    if end == -1 {
      return "", text, false;
    }
    return JoinWith(lines[1..end], "\n"), DropNewline(JoinWith(lines[end + 1..], "\n")), true;
  }

  // ---- The printer ----

  const SPECIAL := ":#[]{}&*!|>'\"%@`"

  predicate NeedsQuote(v: string)
    requires v != ""
  {
    (exists i :: 0 <= i < |v| && v[i] in SPECIAL) || v[0] == ' ' || v[|v| - 1] == ' ' || '0' <= v[0] <= '9'
  }

  /** strings.ReplaceAll of an apostrophe by two. */
  function DoubleApostrophes(v: string): (r: string)
    ensures |r| >= |v|
  {
    if |v| == 0 then "" else (if v[0] == '\'' then "''" else [v[0]]) + DoubleApostrophes(v[1..])
  }

  function YamlScalar(v: string): string
    requires v != ""
  {
    if NeedsQuote(v) then "'" + DoubleApostrophes(v) + "'" else v
  }

  function KeepTrimmed(parts: seq<string>): seq<string>
  {
    if |parts| == 0 then []
    else
      var p := TrimSpace(parts[|parts| - 1]);
      KeepTrimmed(parts[..|parts| - 1]) + if p != "" then [p] else []
  }

  function SplitCSV(s: string): seq<string> { if s == "" then [] else KeepTrimmed(SplitOn(s, ',')) }

  /** One frontmatter line: a key, and its value as printed. */
  datatype Entry = Entry(key: string, printed: string)

  function LineOf(e: Entry): string { e.key + ": " + e.printed }

  function ScalarEntries(key: string, value: string): seq<Entry>
  {
    if value == "" then [] else [Entry(key, YamlScalar(value))]
  }

  function PrintedList(items: seq<string>): string { "[" + JoinWith(items, ", ") + "]" }

  function TagEntries(tags: string): seq<Entry>
  {
    if |SplitCSV(tags)| > 0 then [Entry("tags", PrintedList(SplitCSV(tags)))] else []
  }

  /** An extension key: a list is written as it stands. */
  function ExtraEntries(key: string, value: string): seq<Entry>
  {
    if IsInlineList(value) then [Entry(key, value)] else ScalarEntries(key, value)
  }

  function AllExtras(meta: map<string, string>, keys: seq<string>): seq<Entry>
  {
    if |keys| == 0 then []
    else
      var key := keys[|keys| - 1];
      AllExtras(meta, keys[..|keys| - 1]) + ExtraEntries(key, Get(meta, EXTRA + key))
  }

  function StandardEntries(meta: map<string, string>): seq<Entry>
  {
    ScalarEntries("type", Get(meta, "type")) + ScalarEntries("title", Get(meta, "title"))
    + ScalarEntries("description", Get(meta, "description")) + TagEntries(Get(meta, "tags"))
    + ScalarEntries("resource", Get(meta, "resource")) + ScalarEntries("timestamp", Get(meta, "timestamp"))
  }

  /** The frontmatter of a document: the standard fields in order, then the extension keys. */
  function Entries(meta: map<string, string>, keys: seq<string>): seq<Entry>
  {
    StandardEntries(meta) + AllExtras(meta, keys)
  }

  function Unlines(entries: seq<Entry>): string
  {
    if |entries| == 0 then "" else Unlines(entries[..|entries| - 1]) + LineOf(entries[|entries| - 1]) + "\n"
  }

  /** A document up to the end of some frontmatter lines. */
  function Opened(entries: seq<Entry>): string { DELIM + "\n" + Unlines(entries) }

  function Print(doc: Document, keys: seq<string>): string
  {
    Opened(Entries(doc.meta, keys)) + DELIM + "\n\n" + TrimNewlines(doc.text) + "\n"
  }

  /** The extension keys of `meta`, in name order. */
  ghost predicate AreExtraKeys(meta: map<string, string>, keys: seq<string>)
  {
    SortedBy(StringLess, keys) && forall k :: k in keys <==> EXTRA + k in meta
  }

  method ExtraKeys(meta: map<string, string>) returns (keys: seq<string>)
    ensures AreExtraKeys(meta, keys)
  {
    keys := [];
    var left := meta.Keys;
    while left != {}
      invariant left <= meta.Keys
      invariant forall k :: k in keys <==> EXTRA + k in meta.Keys - left
      invariant forall i, j :: 0 <= i < j < |keys| ==> keys[i] != keys[j]
      decreases left
    {
      var k :| k in left;
      left := left - {k};
      if EXTRA <= k {
        var rest := k[|EXTRA|..];
        assert EXTRA + rest == k;
        assert forall r :: EXTRA + r == k ==> r == rest by {
          forall r | EXTRA + r == k ensures r == rest { assert k[|EXTRA|..] == r; }
        }
        keys := keys + [rest];
      }
    }
    StringOrderIsStrictTotal();
    TotalOnAll(StringLess, keys);
    SortSorts(StringLess, keys);
    keys := Sort(StringLess, keys);
  }

  lemma {:induction false} OpenedOne(before: seq<Entry>, e: Entry)
    ensures Opened(before + [e]) == Opened(before) + e.key + ": " + e.printed + "\n"
  {
    assert (before + [e])[..|before|] == before;
  }

  method WriteScalar(b: string, key: string, value: string, ghost before: seq<Entry>) returns (r: string)
    requires b == Opened(before)
    ensures r == Opened(before + ScalarEntries(key, value))
  {
    hide Opened, YamlScalar;
    if value == "" {
      assert before + [] == before;
      return b;
    }
    r := b + key;
    r := r + ": ";
    r := r + YamlScalar(value);
    r := r + "\n";
    OpenedOne(before, Entry(key, YamlScalar(value)));
  }

  method WriteTags(b: string, value: string, ghost before: seq<Entry>) returns (r: string)
    requires b == Opened(before)
    ensures r == Opened(before + TagEntries(value))
  {
    hide Opened, SplitCSV;
    r := b;
    var tags := SplitCSV(value);
    if |tags| > 0 {
      r := r + "tags: [";
      r := r + JoinWith(tags, ", ");
      r := r + "]\n";
      OpenedOne(before, Entry("tags", PrintedList(tags)));
    } else {
      assert before + [] == before;
    }
  }

  method WriteExtra(b: string, key: string, value: string, ghost before: seq<Entry>) returns (r: string)
    requires b == Opened(before)
    ensures r == Opened(before + ExtraEntries(key, value))
  {
    hide Opened, ScalarEntries;
    if IsInlineList(value) {
      r := b + key;
      r := r + ": ";
      r := r + value;
      r := r + "\n";
      OpenedOne(before, Entry(key, value));
    } else {
      r := WriteScalar(b, key, value, before);
    }
  }

  /** The document's text form: its extension keys are those of the metadata, in name order. */
  ghost predicate IsMarshalled(doc: Document, b: string)
  {
    exists keys :: AreExtraKeys(doc.meta, keys) && b == Print(doc, keys)
  }

  method Marshal(doc: Document) returns (b: string)
    ensures IsMarshalled(doc, b)
  {
    hide Unlines, ScalarEntries, TagEntries, ExtraEntries, AreExtraKeys, TrimNewlines;
    b := DELIM + "\n";
    UnlinesNone();
    b := WriteScalar(b, "type", Get(doc.meta, "type"), []);
    hide Opened;
    ghost var done := [] + ScalarEntries("type", Get(doc.meta, "type"));
    b := WriteScalar(b, "title", Get(doc.meta, "title"), done);
    done := done + ScalarEntries("title", Get(doc.meta, "title"));
    b := WriteScalar(b, "description", Get(doc.meta, "description"), done);
    done := done + ScalarEntries("description", Get(doc.meta, "description"));
    b := WriteTags(b, Get(doc.meta, "tags"), done);
    done := done + TagEntries(Get(doc.meta, "tags"));
    b := WriteScalar(b, "resource", Get(doc.meta, "resource"), done);
    done := done + ScalarEntries("resource", Get(doc.meta, "resource"));
    b := WriteScalar(b, "timestamp", Get(doc.meta, "timestamp"), done);
    done := done + ScalarEntries("timestamp", Get(doc.meta, "timestamp"));
    assert done == StandardEntries(doc.meta);
    var extra := ExtraKeys(doc.meta);
    var i := 0;
    assert done + [] == done;
    while i < |extra|
      invariant 0 <= i <= |extra|
      invariant b == Opened(done + AllExtras(doc.meta, extra[..i]))
    {
      var key, val := extra[i], Get(doc.meta, EXTRA + extra[i]);
      assert extra[..i + 1][..i] == extra[..i];
      ghost var before := done + AllExtras(doc.meta, extra[..i]);
      assert before + ExtraEntries(key, val) == done + AllExtras(doc.meta, extra[..i + 1]);
      b := WriteExtra(b, key, val, before);
      i := i + 1;
    }
    assert extra[..i] == extra;
    b := b + DELIM;
    b := b + "\n\n";
    b := b + TrimNewlines(doc.text);
    b := b + "\n";
    assert b == Print(doc, extra);
  }

  lemma {:induction false} UnlinesNone()
    ensures Unlines([]) == "" && Opened([]) == DELIM + "\n"
  {
  }
}

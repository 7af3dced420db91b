/** Block lists in frontmatter: a key and its items, one line each (memory/okf/frontmatter.go:52-96). */
module OkfBlocks {
  import opened Text
  import opened OkfText
  import opened OkfLoader

  // ---- Lines as they are written ----

  predicate IsBlank(s: string) { forall i :: 0 <= i < |s| ==> IsSpace(s[i]) }

  /** A key with its colon, and perhaps a value behind it. */
  ghost predicate OpensKey(line: string, key: string)
  {
    IsBareKey(key) && exists val :: line == key + ":" + val
  }

  /** A dash, a space and something visible, at any indentation. */
  ghost predicate IsItemLine(line: string, item: string)
  {
    TrimSpace(item) != "" && exists indent :: IsBlank(indent) && line == indent + "- " + item
  }

  /** A blank line or a comment. */
  predicate IsSkipped(line: string) { TrimSpace(line) == "" || TrimSpace(line)[0] == '#' }

  /** One line per item, in order, with blank lines and comments anywhere between. */
  ghost predicate IsBlock(lines: seq<string>, items: seq<string>)
  {
    if |lines| == 0 then items == []
    else
      var front, last := lines[..|lines| - 1], lines[|lines| - 1];
      if IsSkipped(last) then IsBlock(front, items)
      else |items| > 0 && IsItemLine(last, items[|items| - 1]) && IsBlock(front, items[..|items| - 1])
  }

  // ---- What the reader makes of them ----

  lemma {:induction false} BlankIsTrimmed(indent: string, rest: string)
    requires IsBlank(indent)
    ensures TrimLeft(indent + rest) == TrimLeft(rest)
  {
    if |indent| > 0 {
      assert (indent + rest)[1..] == indent[1..] + rest;
      BlankIsTrimmed(indent[1..], rest);
    } else {
      assert indent + rest == rest;
    }
  }

  lemma {:induction false} VisibleEnd(item: string)
    requires TrimSpace(item) != ""
    ensures TrimRight(item) != ""
  {
    TrimOfTrimmed(item);
  }

  lemma {:induction false} ItemIsRead(line: string, item: string)
    requires IsItemLine(line, item)
    ensures "- " <= TrimSpace(line) && TrimSpace(TrimSpace(line)[2..]) == TrimSpace(item)
  {
    var indent :| IsBlank(indent) && line == indent + "- " + item;
    assert line == indent + ("- " + item);
    BlankIsTrimmed(indent, "- " + item);
    VisibleEnd(item);
    assert "- " + item == "-" + (" " + item);
    TrimRightStops("-", " " + item);
    SpacedEnd(item);
    assert TrimSpace(line) == "- " + TrimRight(item);
    TrimOfTrimmed(item);
  }

  lemma {:induction false} SpacedEnd(item: string)
    requires TrimRight(item) != ""
    ensures TrimRight(" " + item) == " " + TrimRight(item)
  {
    if IsSpace(item[|item| - 1]) {
      assert (" " + item)[..|item|] == " " + item[..|item| - 1];
      SpacedEnd(item[..|item| - 1]);
    }
  }

  lemma {:induction false} KeyIsRead(line: string, key: string)
    requires OpensKey(line, key)
    ensures !IsSkipped(line) && !("- " <= TrimSpace(line))
    ensures SplitKeyValue(line).Some? && SplitKeyValue(line).value.0 == key
  {
    var val :| line == key + ":" + val;
    var head := key + ":";
    assert forall i :: 0 <= i < |key| ==> IsBareKeyChar(key[i]);
    TrimRightStops(head, val);
    assert line[0] == key[0] && IsBareKeyChar(line[0]);
    assert TrimSpace(line) == key + ":" + TrimRight(val);
    KeyIsSplitOff(key, TrimRight(val));
    hide TrimSpace, TrimRight, IndexOf;
  }

  /** Reading goes on from where it is. */
  function ReadFrom(st: Reading, lines: seq<string>): Reading
  {
    if |lines| == 0 then st else ReadLine(ReadFrom(st, lines[..|lines| - 1]), lines[|lines| - 1])
  }

  lemma {:induction false} ReadingGoesOn(st: Reading, a: seq<string>, b: seq<string>)
    ensures ReadFrom(st, a + b) == ReadFrom(ReadFrom(st, a), b)
  {
    hide ReadLine;
    if |b| == 0 {
      assert a + b == a;
    } else {
      assert (a + b)[..|a + b| - 1] == a + b[..|b| - 1];
      ReadingGoesOn(st, a, b[..|b| - 1]);
    }
  }

  const NOTHING_READ := Reading(map[], "", [])

  lemma {:induction false} ReadingStarts(lines: seq<string>)
    ensures ReadLines(lines) == ReadFrom(NOTHING_READ, lines)
  {
    hide ReadLine;
    if |lines| > 0 { ReadingStarts(lines[..|lines| - 1]); }
  }

  /** What a reading makes of a list under its key. */
  function WithItems(st: Reading, items: seq<string>): Reading
  {
    var block := st.block + CoerceAll(items);
    if items == [] then st else Reading(st.out[st.curKey := List(block)], st.curKey, block)
  }

  lemma {:induction false} ItemStep(st: Reading, items: seq<string>, line: string, item: string)
    requires st.curKey != "" && IsItemLine(line, item)
    ensures ReadLine(WithItems(st, items), line) == WithItems(st, items + [item])
  {
    ItemIsRead(line, item);
    hide TrimSpace, Coerce, IsItemLine;
    assert CoerceAll(items + [item]) == CoerceAll(items) + [Coerce(TrimSpace(item))];
    assert st.block + CoerceAll(items) + [Coerce(TrimSpace(item))] == st.block + CoerceAll(items + [item]);
    assert items == [] ==> st.block + CoerceAll(items) == st.block;
  }

  lemma {:induction false} BlockIsRead(st: Reading, lines: seq<string>, items: seq<string>)
    requires st.curKey != "" && IsBlock(lines, items)
    ensures ReadFrom(st, lines) == WithItems(st, items)
  {
    hide TrimSpace, WithItems, IsItemLine;
    if |lines| == 0 {
      assert WithItems(st, []) == st by { NothingAdded(st); }
    } else {
      var front, last := lines[..|lines| - 1], lines[|lines| - 1];
      if IsSkipped(last) {
        BlockIsRead(st, front, items);
      } else {
        var n := |items| - 1;
        BlockIsRead(st, front, items[..n]);
        ItemStep(st, items[..n], last, items[n]);
        assert items[..n] + [items[n]] == items;
      }
    }
  }

  lemma {:induction false} NothingAdded(st: Reading)
    ensures WithItems(st, []) == st
  {
  }

  /** Lines behind another key, none of which opens `key`, leave it as it is. */
  lemma {:induction false} OthersLeaveIt(st: Reading, lines: seq<string>, key: string)
    requires key in st.out
    requires st.curKey != key || (|lines| > 0 && exists other :: other != key && OpensKey(lines[0], other))
    requires forall i :: 0 <= i < |lines| ==> !SplitsAt(lines[i], key)
    ensures key in ReadFrom(st, lines).out && ReadFrom(st, lines).out[key] == st.out[key]
    ensures |lines| > 0 ==> ReadFrom(st, lines).curKey != key
  {
    hide TrimSpace, SplitKeyValue, Coerce, ParseValue, OpensKey;
    if |lines| > 0 {
      var n := |lines| - 1;
      if n == 0 {
        assert ReadFrom(st, lines[..0]) == st;
        if st.curKey == key {
          var other :| other != key && OpensKey(lines[0], other);
          KeyIsRead(lines[0], other);
        }
      } else {
        assert lines[..n][0] == lines[0];
        OthersLeaveIt(st, lines[..n], key);
      }
    }
  }

  /** The line opens `key`, whatever is written round it. */
  predicate SplitsAt(line: string, key: string)
  {
    SplitKeyValue(line).Some? && SplitKeyValue(line).value.0 == key
  }

  lemma {:induction false} KeyStep(st: Reading, line: string, key: string)
    requires OpensKey(line, key)
    ensures var t := ReadFrom(st, [line]); t.curKey == key && t.block == [] && key in t.out
  {
    KeyIsRead(line, key);
    assert [line][..0] == [];
    hide TrimSpace, SplitKeyValue, ParseValue, OpensKey;
  }

  /** Lines of other keys: they open none of `key`, and the first of them opens another. */
  ghost predicate AreOthers(lines: seq<string>, key: string)
  {
    && (lines != [] ==> exists other :: other != key && OpensKey(lines[0], other))
    && forall i :: 0 <= i < |lines| ==> !SplitsAt(lines[i], key)
  }

  lemma {:induction false} BlockListIsRead(st: Reading, line: string, block: seq<string>, after: seq<string>,
    key: string, items: seq<string>)
    requires OpensKey(line, key) && IsBlock(block, items) && items != [] && AreOthers(after, key)
    ensures
      var out := ReadFrom(st, [line] + block + after).out;
      key in out && out[key] == List(CoerceAll(items))
  {
    var t := ReadFrom(st, [line]);
    var u := ReadFrom(t, block);
    KeyStep(st, line, key);
    assert key != "" by { KeyIsThere(line, key); }
    BlockIsRead(t, block, items);
    assert u == WithItems(t, items);
    assert [] + CoerceAll(items) == CoerceAll(items);
    hide ReadLine, IsBlock, CoerceAll, OpensKey, ReadFrom;
    ReadingGoesOn(st, [line] + block, after);
    ReadingGoesOn(st, [line], block);
    if after != [] {
      OthersLeaveIt(u, after, key);
    } else {
      assert ReadFrom(u, after) == u by { NothingMoreIsRead(u); }
    }
  }

  lemma {:induction false} NothingMoreIsRead(st: Reading)
    ensures ReadFrom(st, []) == st
  {
  }

  lemma {:induction false} KeyIsThere(line: string, key: string)
    requires OpensKey(line, key)
    ensures key != ""
  {
  }

  /** A key line with its block, behind any lines and before lines of other keys. */
  ghost predicate HoldsBlock(lines: seq<string>, key: string, items: seq<string>)
  {
    exists before, line, block, after ::
      && lines == before + ([line] + block + after)
      && OpensKey(line, key) && IsBlock(block, items) && AreOthers(after, key)
  }

  /** Such a key is mapped to exactly the items of its block, coerced and in order. */
  lemma {:induction false} BlockListIsParsed(lines: seq<string>, key: string, items: seq<string>)
    requires HoldsBlock(lines, key, items) && items != [] && forall i :: 0 <= i < |lines| ==> '\n' !in lines[i]
    ensures
      var out := Parse(JoinWith(lines, "\n"));
      key in out && out[key] == List(CoerceAll(items))
  {
    hide SplitOn, JoinWith, IsBlock, OpensKey, CoerceAll, ReadFrom, ReadLines, AreOthers;
    var before, line, block, after :|
      && lines == before + ([line] + block + after)
      && OpensKey(line, key) && IsBlock(block, items) && AreOthers(after, key);
    SplitOfJoin(lines, '\n');
    ReadingStarts(lines);
    ReadingGoesOn(NOTHING_READ, before, [line] + block + after);
    BlockListIsRead(ReadFrom(NOTHING_READ, before), line, block, after, key, items);
  }

  // ---- From the file to the metadata ----

  /** Lines that stand between two delimiter lines are taken as frontmatter. */
  lemma {:induction false} FramedIsTaken(lines: seq<string>, rest: string)
    requires forall i :: 0 <= i < |lines| ==> '\n' !in lines[i] && TrimSpace(lines[i]) != DELIM
    ensures TakeApart(Framed(lines, rest)).fm == JoinWith(lines, "\n") && TakeApart(Framed(lines, rest)).present
  {
    var all := [DELIM] + lines + [DELIM] + SplitOn(rest, '\n');
    FramedIsSplit(lines, rest);
    TrimmedStays(DELIM);
    hide SplitOn, TrimSpace, Trimmed, Framed, JoinWith;
    assert all[|lines| + 1] == DELIM;
    DelimAt(all, 1, |lines| + 1);
    assert all[1..|lines| + 1] == lines;
  }

  /** A file: a delimiter line, some lines, a delimiter line, and the rest. */
  function Framed(lines: seq<string>, rest: string): string
  {
    DELIM + "\n" + Terminated(lines) + DELIM + "\n" + rest
  }

  function Terminated(lines: seq<string>): string
  {
    if |lines| == 0 then "" else Terminated(lines[..|lines| - 1]) + lines[|lines| - 1] + "\n"
  }

  lemma {:induction false} FramedIsSplit(lines: seq<string>, rest: string)
    requires forall i :: 0 <= i < |lines| ==> '\n' !in lines[i]
    ensures SplitOn(Framed(lines, rest), '\n') == [DELIM] + lines + [DELIM] + SplitOn(rest, '\n')
  {
    hide SplitOn, Terminated;
    var tail := DELIM + "\n" + rest;
    assert Framed(lines, rest) == DELIM + "\n" + (Terminated(lines) + tail);
    SplitAtSeparator(DELIM, '\n', Terminated(lines) + tail);
    TerminatedIsSplit(lines, tail);
    SplitAtSeparator(DELIM, '\n', rest);
  }

  lemma {:induction false} TerminatedIsSplit(lines: seq<string>, rest: string)
    requires forall i :: 0 <= i < |lines| ==> '\n' !in lines[i]
    ensures SplitOn(Terminated(lines) + rest, '\n') == lines + SplitOn(rest, '\n')
  {
    hide SplitOn;
    if |lines| == 0 {
      assert Terminated(lines) + rest == rest;
    } else {
      var n := |lines| - 1;
      var front, line := Terminated(lines[..n]), lines[n];
      TerminatedIsSplit(lines[..n], line + "\n" + rest);
      SplitAtSeparator(line, '\n', rest);
      JoinPrepends(front, line, "\n", rest);
      assert lines == lines[..n] + [line];
    }
  }

  /** So a block list of tags is loaded as those tags, joined with commas, and any other one as an inline list. */
  lemma {:induction false} BlockListIsLoaded(lines: seq<string>, rest: string, key: string, items: seq<string>,
    id: string, outlinks: string, r: Document)
    requires HoldsBlock(lines, key, items) && items != []
    requires forall i :: 0 <= i < |lines| ==> '\n' !in lines[i] && TrimSpace(lines[i]) != DELIM
    requires IsLoaded(Framed(lines, rest), id, outlinks, r)
    ensures key == "tags" ==> Get(r.meta, "tags") == JoinWith(CoerceAll(items), ",")
    ensures key !in STANDARD ==>
      EXTRA + key in r.meta && r.meta[EXTRA + key] == "[" + JoinWith(CoerceAll(items), ", ") + "]"
  {
    FramedIsTaken(lines, rest);
    BlockListIsParsed(lines, key, items);
    hide Parse, TakeApart, IsConceptMeta, HoldsBlock, CoerceAll, JoinWith, Framed, TrimSpace;
    var out := Parse(TakeApart(Framed(lines, rest)).fm);
    LoadedExtra(out, id, outlinks, r.meta, key);
    if key == "tags" { LoadedField(out, id, outlinks, r.meta, "tags"); }
  }

  // ---- Single lines, however they are written ----

  /** Blank lines, comments, items in front of any key, and lines without a bare key change nothing. */
  lemma {:induction false} OtherLinesAreSkipped(st: Reading, line: string)
    requires IsSkipped(line) || (SplitKeyValue(line).None? && !("- " <= TrimSpace(line) && st.curKey != ""))
    ensures ReadLine(st, line) == st
  {
  }

  /** One pair of surrounding quotes of either kind is taken off a scalar, and nothing else. */
  lemma {:induction false} QuotesAreStripped(v: string, q: char)
    requires q == '"' || q == '\''
    ensures ParseValue([q] + v + [q]) == Str(v)
  {
    var quoted := [q] + v + [q];
    TrimmedStays(quoted);
    assert quoted[1..|quoted| - 1] == v;
  }

  /** A text without surrounding brackets or quotes is taken as it stands, but for white space at its edges. */
  lemma {:induction false} PlainIsItself(v: string)
    requires v != "" && !IsInlineList(v) && !IsWrapped(TrimSpace(v), '"') && !IsWrapped(TrimSpace(v), '\'')
    ensures ParseValue(v) == Str(TrimSpace(v))
  {
  }

  /** A file without frontmatter, or without an end to it, is all body. */
  lemma {:induction false} UnframedIsBody(text: string)
    ensures
      var lines := SplitOn(text, '\n');
      if TrimSpace(lines[0]) == DELIM && exists i :: 1 <= i < |lines| && TrimSpace(lines[i]) == DELIM
      then TakeApart(text).present
      else TakeApart(text) == Parts("", text, false)
  {
    var lines := SplitOn(text, '\n');
    hide TrimSpace, SplitOn;
    FirstDelim(lines, 1);
  }

  lemma {:induction false} FirstDelim(lines: seq<string>, i: nat)
    requires i <= |lines|
    ensures FindDelim(lines, i) < |lines| <==> exists k :: i <= k < |lines| && TrimSpace(lines[k]) == DELIM
    decreases |lines| - i
  {
    if i < |lines| { FirstDelim(lines, i + 1); }
  }

  /** A single tag is loaded as one tag; a list where a scalar is expected as none. */
  lemma {:induction false} OddKindsAreLoaded(text: string, id: string, outlinks: string, r: Document, f: string)
    requires IsLoaded(text, id, outlinks, r) && f in STANDARD && f in Parse(TakeApart(text).fm)
    ensures
      var v := Parse(TakeApart(text).fm)[f];
      && (f == "tags" && v.Str? ==> Get(r.meta, f) == v.text)
      && (f != "tags" && f != "title" && v.List? ==> Get(r.meta, f) == "")
      && (f == "title" && v.List? ==> Get(r.meta, f) == LastSegment(id))
  {
    hide Parse, TakeApart, IsConceptMeta, LastSegment;
    LoadedField(Parse(TakeApart(text).fm), id, outlinks, r.meta, f);
  }

  /** The example of the format's documentation: two tags, one to a line. */
  lemma {:induction false} TwoItemsMakeABlock()
    ensures HoldsBlock(["tags:", "  - alpha", "  - beta"], "tags", ["alpha", "beta"])
  {
    var one, two := "  - alpha", "  - beta";
    ItemOf("  ", "alpha", one);
    ItemOf("  ", "beta", two);
    assert OpensKey("tags:", "tags") by { assert "tags:" == "tags" + ":" + ""; }
    BlockOfTwo(one, two, "alpha", "beta");
    hide IsBlock, OpensKey;
    assert AreOthers([], "tags");
    assert ["tags:", one, two] == [] + (["tags:"] + [one, two] + []);
  }

  lemma {:induction false} BlockOfTwo(one: string, two: string, a: string, b: string)
    requires IsItemLine(one, a) && !IsSkipped(one) && IsItemLine(two, b) && !IsSkipped(two)
    ensures IsBlock([one, two], [a, b])
  {
    hide IsItemLine, IsSkipped;
    assert [one][..0] == [] && [a][..0] == [];
    assert IsBlock([one], [a]);
    assert [one, two][..1] == [one] && [a, b][..1] == [a];
  }

  lemma {:induction false} ItemOf(indent: string, item: string, line: string)
    requires IsBlank(indent) && Trimmed(item) && line == indent + "- " + item
    ensures IsItemLine(line, item) && !IsSkipped(line)
  {
    TrimmedStays(item);
    ItemIsRead(line, item);
  }
}

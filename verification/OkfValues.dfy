/** Which frontmatter values survive printing and parsing: scalars, tags, and the lists of extension keys (memory/okf). */
module OkfValues {
  import opened Text
  import opened OkfText

  // ---- Scalars ----

  /** A value that survives printing and parsing as a scalar. */
  predicate Readable(v: string)
  {
    v != "" && '\'' !in v && (NeedsQuote(v) || Trimmed(v))
  }

  lemma {:induction false} NothingDoubled(v: string)
    ensures '\'' !in v ==> DoubleApostrophes(v) == v
    ensures '\'' in v ==> |DoubleApostrophes(v)| > |v|
  {
    if |v| > 0 {
      NothingDoubled(v[1..]);
      assert v == [v[0]] + v[1..];
    }
  }

  lemma {:induction false} UnquotedIsPlain(v: string)
    requires v != "" && !NeedsQuote(v)
    ensures forall c :: c in v ==> c !in SPECIAL
  {
  }

  /** Coerce undoes the quotes the printer puts round a value, and nothing more. */
  lemma {:induction false} QuotedReadsBack(v: string)
    requires v != "" && NeedsQuote(v)
    ensures Trimmed(YamlScalar(v)) && ParseValue(YamlScalar(v)) == Str(DoubleApostrophes(v))
  {
    var q := YamlScalar(v);
    var inner := DoubleApostrophes(v);
    assert q[0] == '\'' && q[|q| - 1] == '\'' && q[1..|q| - 1] == inner;
    hide DoubleApostrophes, NeedsQuote;
    TrimmedStays(q);
  }

  /**
   * A printed scalar is read back exactly when it has no apostrophe, and has no white space at its edges unless
   * something else makes the printer quote it.
   */
  lemma {:induction false} ScalarReadsBack(v: string)
    requires v != ""
    ensures ParseValue(TrimSpace(YamlScalar(v))) == Str(v) <==> Readable(v)
  {
    NothingDoubled(v);
    TrimShape(v);
    if NeedsQuote(v) {
      QuotedReadsBack(v);
      TrimmedStays(YamlScalar(v));
    } else {
      UnquotedIsPlain(v);
      var t := TrimSpace(v);
      TrimShape(t);
      if t != "" {
        assert t[0] in t && t[0] in v;
        assert t[0] != '[' && t[0] != '"' && t[0] != '\'';
      }
      assert forall c :: c in v ==> c != '\'';
    }
  }

  /** A printed scalar is never taken for a list, and is read as nothing only when it is bare white space. */
  lemma {:induction false} ScalarStaysScalar(v: string)
    requires v != ""
    ensures ParseValue(TrimSpace(YamlScalar(v))).Str?
    ensures ParseValue(TrimSpace(YamlScalar(v))) == Str("") <==> !NeedsQuote(v) && TrimSpace(v) == ""
  {
    TrimShape(v);
    if NeedsQuote(v) {
      QuotedReadsBack(v);
      TrimmedStays(YamlScalar(v));
    } else {
      UnquotedIsPlain(v);
      var t := TrimSpace(v);
      TrimShape(t);
      if t != "" {
        assert t[0] in t && t[0] in v;
        assert t[0] != '[' && t[0] != '"' && t[0] != '\'';
      }
    }
  }

  /** An apostrophe does not survive: the printer doubles it and the parser leaves it doubled. */
  lemma {:induction false} ApostropheIsDoubled(v: string)
    requires '\'' in v
    ensures ParseValue(TrimSpace(YamlScalar(v))) == Str(DoubleApostrophes(v)) && DoubleApostrophes(v) != v
  {
    assert '\'' in SPECIAL;
    var i :| 0 <= i < |v| && v[i] == '\'';
    assert v[i] in SPECIAL;
    NothingDoubled(v);
    QuotedReadsBack(v);
    TrimmedStays(YamlScalar(v));
  }

  // ---- Lists ----

  predicate AreCommaFree(items: seq<string>) { forall i :: 0 <= i < |items| ==> ',' !in items[i] }

  lemma {:induction false} JoinIsTrimmed(items: seq<string>, sep: string)
    requires |items| > 0 && Trimmed(items[0]) && Trimmed(items[|items| - 1])
    ensures Trimmed(JoinWith(items, sep))
  {
    if |items| > 1 {
      if |items| == 2 {
        assert JoinWith(items[1..], sep) == items[1];
      } else {
        JoinEndsTrimmed(items[1..], sep);
      }
      var rest := JoinWith(items[1..], sep);
      var all := items[0] + sep + rest;
      assert all[0] == items[0][0] && all[|all| - 1] == rest[|rest| - 1];
    }
  }

  lemma {:induction false} JoinEndsTrimmed(items: seq<string>, sep: string)
    requires |items| > 0 && Trimmed(items[|items| - 1])
    ensures |JoinWith(items, sep)| > 0 && !IsSpace(JoinWith(items, sep)[|JoinWith(items, sep)| - 1])
  {
    if |items| > 1 { JoinEndsTrimmed(items[1..], sep); }
  }

  lemma {:induction false} JoinAvoids(items: seq<string>, sep: string, c: char)
    requires c !in sep && forall i :: 0 <= i < |items| ==> c !in items[i]
    ensures c !in JoinWith(items, sep)
  {
    if |items| > 1 {
      JoinAvoids(items[1..], sep, c);
    }
  }

  /** Splitting a printed list at its commas: the items, all but the first behind a space. */
  lemma {:induction false} SplitOfSpaced(items: seq<string>)
    requires |items| > 0 && AreCommaFree(items)
    ensures
      var parts := SplitOn(JoinWith(items, ", "), ',');
      && |parts| == |items| && parts[0] == items[0]
      && forall i :: 1 <= i < |parts| ==> parts[i] == " " + items[i]
  {
    if |items| == 1 {
      SplitWithout(items[0], ',');
    } else {
      var rest := JoinWith(items[1..], ", ");
      SplitOfSpaced(items[1..]);
      var tail := SplitOn(rest, ',');
      assert items[0] + ", " + rest == items[0] + "," + (" " + rest);
      SplitAtSeparator(items[0], ',', " " + rest);
      assert (" " + rest)[1..] == rest;
      assert SplitOn(" " + rest, ',') == [" " + tail[0]] + tail[1..];
    }
  }

  /** A printed list is parsed into its items, trimmed and without their quotes; a blank inside into none. */
  lemma {:induction false} ListParses(items: seq<string>)
    requires |items| > 0 && AreCommaFree(items)
    ensures IsInlineList(PrintedList(items))
    ensures ParseInlineList(PrintedList(items)) ==
      if TrimSpace(JoinWith(items, ", ")) == "" then [] else CoerceAll(items)
  {
    var printed, all := PrintedList(items), JoinWith(items, ", ");
    assert printed[1..|printed| - 1] == all;
    SplitOfSpaced(items);
    SplitOfTrimmed(all, ',');
    var parts := SplitOn(TrimSpace(all), ',');
    hide TrimSpace, SplitOn;
    forall i | 0 <= i < |items| ensures TrimSpace(parts[i]) == TrimSpace(items[i]) {
      TrimIgnoresEdge(items[i], ' ');
      assert i > 0 ==> [' '] + items[i] == " " + items[i];
    }
    assert CoerceAll(parts) == CoerceAll(items);
  }

  lemma {:induction false} CoerceShape(v: string)
    ensures |Coerce(v)| <= |TrimSpace(v)| && forall c :: c in Coerce(v) ==> c in v
    ensures |Coerce(v)| == |TrimSpace(v)| ==>
      Coerce(v) == TrimSpace(v) && !IsWrapped(TrimSpace(v), '"') && !IsWrapped(TrimSpace(v), '\'')
  {
    TrimShape(v);
  }

  /** An item the parser leaves as it is: empty, or visible at both ends, without a comma or a pair of quotes. */
  predicate IsKept(x: string)
  {
    x == "" || (Trimmed(x) && ',' !in x && !IsWrapped(x, '"') && !IsWrapped(x, '\''))
  }

  predicate AreKept(items: seq<string>) { forall i :: 0 <= i < |items| ==> IsKept(items[i]) }

  lemma {:induction false} KeptExactly(x: string)
    ensures ',' !in x ==> (Coerce(TrimSpace(x)) == x <==> IsKept(x))
    ensures IsKept(x) ==> ',' !in x
  {
    TrimShape(x);
    TrimOfTrimmed(x);
    CoerceShape(TrimSpace(x));
  }

  lemma {:induction false} ParsedHasNoComma(v: string)
    requires IsInlineList(v)
    ensures AreCommaFree(ParseInlineList(v))
  {
    var inner := TrimSpace(v[1..|v| - 1]);
    var parts := SplitOn(inner, ',');
    SplitCharacters(inner, ',');
    forall i | 0 <= i < |parts| ensures ',' !in Coerce(TrimSpace(parts[i])) {
      TrimShape(parts[i]);
      CoerceShape(TrimSpace(parts[i]));
    }
  }

  /** A list written inline comes back as it was exactly when it is the printed form of items the parser keeps. */
  lemma {:induction false} ListReadsBack(v: string)
    requires IsInlineList(v)
    ensures PrintedList(ParseInlineList(v)) == v <==> exists items :: AreKept(items) && v == PrintedList(items)
  {
    if PrintedList(ParseInlineList(v)) == v {
      var z := ParseInlineList(v);
      ParsedHasNoComma(v);
      if |z| > 0 {
        ListParses(z);
        forall i | 0 <= i < |z| ensures IsKept(z[i]) {
          KeptExactly(z[i]);
          assert CoerceAll(z)[i] == z[i];
        }
      }
      assert AreKept(z);
    }
    forall items | AreKept(items) && v == PrintedList(items) ensures PrintedList(ParseInlineList(v)) == v {
      KeptListReadsBack(items);
    }
  }

  lemma {:induction false} KeptListReadsBack(items: seq<string>)
    requires AreKept(items)
    ensures IsInlineList(PrintedList(items)) && PrintedList(ParseInlineList(PrintedList(items))) == PrintedList(items)
  {
    if |items| == 0 || items == [""] {
      assert PrintedList(items) == "[]" && "[]"[1..1] == "";
    } else {
      assert |items| == 1 ==> items == [items[0]] && items[0] != "";
      ListIsNotBlank(items);
      forall i | 0 <= i < |items| ensures Coerce(TrimSpace(items[i])) == items[i] && ',' !in items[i] {
        KeptExactly(items[i]);
      }
      ListParses(items);
      assert CoerceAll(items) == items;
    }
  }

  /** A text with something visible in it is not trimmed away. */
  lemma {:induction false} VisibleStays(s: string, c: char)
    requires c in s && !IsSpace(c)
    ensures TrimLeft(s) != "" && TrimSpace(s) != ""
  {
    assert s == [s[0]] + s[1..];
    if IsSpace(s[0]) {
      VisibleStays(s[1..], c);
    } else {
      TrimRightStops([s[0]], s[1..]);
    }
  }

  /** Only the list of one empty item has a blank inside. */
  lemma {:induction false} ListIsNotBlank(items: seq<string>)
    requires |items| > 1 || (|items| == 1 && Trimmed(items[0]))
    ensures TrimSpace(JoinWith(items, ", ")) != ""
  {
    var all := JoinWith(items, ", ");
    if |items| > 1 {
      assert all == items[0] + ", " + JoinWith(items[1..], ", ");
      assert all[|items[0]|] == ',';
      VisibleStays(all, ',');
    } else {
      VisibleStays(all, items[0][0]);
    }
  }

  // ---- Tags ----

  /** An item that survives as a tag: not empty either. */
  predicate IsNormal(x: string) { x != "" && IsKept(x) }

  predicate AreNormal(items: seq<string>) { forall i :: 0 <= i < |items| ==> IsNormal(items[i]) }

  /** The comma-joined form of items that survive. */
  ghost predicate AreReadableTags(v: string)
  {
    '\n' !in v && exists items :: AreNormal(items) && v == JoinWith(items, ",")
  }

  lemma {:induction false} KeepsTrimmed(parts: seq<string>)
    ensures |KeepTrimmed(parts)| <= |parts|
    ensures |KeepTrimmed(parts)| == |parts| ==> forall i :: 0 <= i < |parts| ==> KeepTrimmed(parts)[i] == TrimSpace(parts[i])
    ensures forall i :: 0 <= i < |KeepTrimmed(parts)| ==> Trimmed(KeepTrimmed(parts)[i])
  {
    if |parts| > 0 {
      KeepsTrimmed(parts[..|parts| - 1]);
      TrimShape(parts[|parts| - 1]);
    }
  }

  lemma {:induction false} KeptCharacters(parts: seq<string>, i: nat, c: char)
    requires i < |KeepTrimmed(parts)| && c in KeepTrimmed(parts)[i]
    ensures exists j :: 0 <= j < |parts| && c in parts[j]
  {
    var n := |parts| - 1;
    TrimShape(parts[n]);
    if i < |KeepTrimmed(parts[..n])| { KeptCharacters(parts[..n], i, c); }
  }

  /** Splitting metadata gives visible items, without commas and with only the text's characters. */
  lemma {:induction false} SplitCsvShape(v: string)
    ensures AreCommaFree(SplitCSV(v))
    ensures forall i :: 0 <= i < |SplitCSV(v)| ==> Trimmed(SplitCSV(v)[i]) && forall c :: c in SplitCSV(v)[i] ==> c in v
  {
    var parts := SplitOn(v, ',');
    KeepsTrimmed(parts);
    SplitCharacters(v, ',');
    forall i | 0 <= i < |KeepTrimmed(parts)|
      ensures ',' !in KeepTrimmed(parts)[i] && forall c :: c in KeepTrimmed(parts)[i] ==> c in v
    {
      forall c | c in KeepTrimmed(parts)[i] ensures c in v && c != ',' {
        KeptCharacters(parts, i, c);
      }
    }
  }

  lemma {:induction false} KeepsNormal(items: seq<string>)
    requires AreNormal(items)
    ensures KeepTrimmed(items) == items
  {
    if |items| > 0 {
      var n := |items| - 1;
      KeepsNormal(items[..n]);
      TrimmedStays(items[n]);
      assert items == items[..n] + [items[n]];
    }
  }

  /** The comma-joined form gives normal items back. */
  lemma {:induction false} CsvReadsBack(items: seq<string>)
    requires AreNormal(items)
    ensures SplitCSV(JoinWith(items, ",")) == items
  {
    if |items| > 0 {
      JoinIsTrimmed(items, ",");
      SplitOfJoin(items, ',');
      KeepsNormal(items);
    }
  }

  /** What the loader makes of a printed tag list. */
  function TagsRead(v: string): seq<string> { CoerceAll(SplitCSV(v)) }

  /** Tags come back as they were exactly when they are the joined form of normal items. */
  lemma {:induction false} TagsReadBack(v: string)
    requires '\n' !in v
    ensures JoinWith(TagsRead(v), ",") == v <==> AreReadableTags(v)
  {
    if AreReadableTags(v) {
      var items :| AreNormal(items) && v == JoinWith(items, ",");
      CsvReadsBack(items);
      forall i | 0 <= i < |items| ensures Coerce(TrimSpace(items[i])) == items[i] {
        KeptExactly(items[i]);
      }
      assert TagsRead(v) == items;
    }
    if JoinWith(TagsRead(v), ",") == v {
      StableTagsAreNormal(v);
      assert AreNormal(TagsRead(v));
    }
  }

  lemma {:induction false} StableTagsAreNormal(v: string)
    requires JoinWith(TagsRead(v), ",") == v
    ensures AreNormal(TagsRead(v))
  {
    var items, read := SplitCSV(v), TagsRead(v);
    SplitCsvShape(v);
    if |items| > 0 {
      forall i | 0 <= i < |items| ensures ',' !in read[i] && |read[i]| <= |items[i]| {
        TrimShape(items[i]);
        TrimOfTrimmed(items[i]);
        CoerceShape(TrimSpace(items[i]));
      }
      SplitOfJoin(read, ',');
      KeepsTrimmed(read);
      forall i | 0 <= i < |items| ensures IsNormal(read[i]) {
        assert items[i] == TrimSpace(read[i]);
        TrimShape(read[i]);
        assert read[i] == items[i] && read[i] == Coerce(TrimSpace(items[i]));
        KeptExactly(read[i]);
      }
    }
  }
}

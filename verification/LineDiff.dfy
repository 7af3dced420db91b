/** The line diff of cmd/galdor/spellbook.go: an LCS table filled from the back, and a backtrace through it. */
module LineDiff {
  import opened Text

  // ---- What a diff says ----

  /** The output lines marked common or with `mark`, without their marks. */
  function Side(out: seq<string>, mark: string): seq<string>
    requires |mark| == 2
  {
    if |out| == 0 then []
    else if "  " <= out[0] || mark <= out[0] then [out[0][2..]] + Side(out[1..], mark)
    else Side(out[1..], mark)
  }

  /** The lines of the old text a script shows: common or removed. */
  function OldSide(out: seq<string>): seq<string> { Side(out, "- ") }

  /** The lines of the new text a script shows: common or added. */
  function NewSide(out: seq<string>): seq<string> { Side(out, "+ ") }

  function CommonLines(out: seq<string>): seq<string> { Side(out, "  ") }

  /** A script of marked lines that turns `a` into `b`. */
  predicate IsDiff(out: seq<string>, a: seq<string>, b: seq<string>)
  {
    && (forall i :: 0 <= i < |out| ==> "  " <= out[i] || "- " <= out[i] || "+ " <= out[i])
    && OldSide(out) == a && NewSide(out) == b
  }

  /** How many lines a script marks as removed or added. */
  function Changes(out: seq<string>): nat
  {
    if |out| == 0 then 0 else (if "  " <= out[0] then 0 else 1) + Changes(out[1..])
  }

  /** `c` is `s` with some elements left out. */
  predicate Subsequence(c: seq<string>, s: seq<string>)
    decreases |s|
  {
    if |c| == 0 then true
    else if |s| == 0 then false
    else (c[0] == s[0] && Subsequence(c[1..], s[1..])) || Subsequence(c, s[1..])
  }

  // ---- The table ----

  /** The entry for the suffixes `a` and `b`. */
  function Lcs(a: seq<string>, b: seq<string>): nat
    decreases |a| + |b|
  {
    if |a| == 0 || |b| == 0 then 0
    else if a[0] == b[0] then Lcs(a[1..], b[1..]) + 1
    else if Lcs(a[1..], b) >= Lcs(a, b[1..]) then Lcs(a[1..], b)
    else Lcs(a, b[1..])
  }

  lemma {:induction false} SubsequenceOfTail(c: seq<string>, s: seq<string>)
    requires |c| > 0 && Subsequence(c, s)
    ensures Subsequence(c[1..], s) && |s| > 0 && Subsequence(c[1..], s[1..])
    decreases |s|
  {
    if c[0] == s[0] && Subsequence(c[1..], s[1..]) {
      SubsequenceSkips(c[1..], s);
    } else {
      SubsequenceOfTail(c, s[1..]);
      SubsequenceSkips(c[1..], s);
    }
  }

  lemma {:induction false} SubsequenceSkips(c: seq<string>, s: seq<string>)
    requires |s| > 0 && Subsequence(c, s[1..])
    ensures Subsequence(c, s)
  {
  }

  /** No common subsequence is longer than the table entry. */
  lemma {:induction false} LcsIsLongest(c: seq<string>, a: seq<string>, b: seq<string>)
    requires Subsequence(c, a) && Subsequence(c, b)
    ensures |c| <= Lcs(a, b)
    decreases |a| + |b|
  {
    if |c| > 0 {
      if a[0] == b[0] {
        SubsequenceOfTail(c, a);
        SubsequenceOfTail(c, b);
        LcsIsLongest(c[1..], a[1..], b[1..]);
      } else if c[0] != a[0] {
        LcsIsLongest(c, a[1..], b);
        LcsIsLongest([], a, b[1..]);
      } else {
        LcsIsLongest(c, a, b[1..]);
        LcsIsLongest([], a[1..], b);
      }
    }
  }

  lemma {:induction false} SideAppends(x: seq<string>, y: seq<string>, mark: string)
    requires |mark| == 2
    ensures Side(x + y, mark) == Side(x, mark) + Side(y, mark)
    decreases |x|
  {
    if |x| == 0 {
      assert x + y == y;
    } else {
      assert (x + y)[1..] == x[1..] + y;
      SideAppends(x[1..], y, mark);
    }
  }

  lemma {:induction false} OneLineSide(mark: string, line: string, kept: string)
    requires |mark| == 2 && |kept| == 2 && mark[1] == kept[1] == ' '
    ensures Side([mark + line], kept) == if mark == "  " || mark == kept then [line] else []
  {
    var m := mark + line;
    var one: seq<string> := [m];
    assert m[0] == mark[0] && m[1] == mark[1] && m[2..] == line;
    assert one[1..] == [] && Side([], kept) == [];
    assert "  " <= m <==> mark == "  ";
    assert kept <= m <==> mark == kept by {
      assert kept <= m <==> kept == m[..2];
      assert m[..2] == mark;
    }
  }

  lemma {:induction false} OneLine(mark: string, line: string)
    requires mark == "  " || mark == "- " || mark == "+ "
    ensures OldSide([mark + line]) == if mark == "+ " then [] else [line]
    ensures NewSide([mark + line]) == if mark == "- " then [] else [line]
    ensures CommonLines([mark + line]) == if mark == "  " then [line] else []
  {
    hide Side;
    OneLineSide(mark, line, "- ");
    OneLineSide(mark, line, "+ ");
    OneLineSide(mark, line, "  ");
  }

  /** The common lines of any script are a common subsequence, and fix how many lines it marks as changed. */
  lemma {:induction false} ScriptCommon(out: seq<string>, a: seq<string>, b: seq<string>)
    requires IsDiff(out, a, b)
    ensures Subsequence(CommonLines(out), a) && Subsequence(CommonLines(out), b)
    ensures Changes(out) == |a| + |b| - 2 * |CommonLines(out)|
    decreases |out|
  {
    if |out| > 0 {
      var rest := out[1..];
      ScriptCommon(rest, OldSide(rest), NewSide(rest));
      assert "  " <= out[0] ==> a[1..] == OldSide(rest) && b[1..] == NewSide(rest);
      assert "- " <= out[0] ==> a[1..] == OldSide(rest);
      assert "+ " <= out[0] ==> b[1..] == NewSide(rest);
    }
  }

  /** A script with as many common lines as the table promises has the fewest changed lines. */
  lemma {:induction false} NoDiffIsShorter(out: seq<string>, other: seq<string>, a: seq<string>, b: seq<string>)
    requires IsDiff(out, a, b) && |CommonLines(out)| == Lcs(a, b) && IsDiff(other, a, b)
    ensures Changes(out) <= Changes(other)
  {
    ScriptCommon(out, a, b);
    ScriptCommon(other, a, b);
    LcsIsLongest(CommonLines(other), a, b);
  }

  /** The entries around `(i, j)` in the table. */
  lemma {:induction false} TableStep(al: seq<string>, bl: seq<string>, i: nat, j: nat)
    requires i < |al| && j < |bl|
    ensures al[..i + 1] == al[..i] + [al[i]] && bl[..j + 1] == bl[..j] + [bl[j]]
    ensures Lcs(al[i..], bl[j..]) ==
      if al[i] == bl[j] then Lcs(al[i + 1..], bl[j + 1..]) + 1
      else if Lcs(al[i + 1..], bl[j..]) >= Lcs(al[i..], bl[j + 1..]) then Lcs(al[i + 1..], bl[j..])
      else Lcs(al[i..], bl[j + 1..])
  {
    assert al[i..][1..] == al[i + 1..] && bl[j..][1..] == bl[j + 1..];
  }

  lemma {:induction false} TableEdge(al: seq<string>, bl: seq<string>)
    requires |al| == 0 || |bl| == 0
    ensures Lcs(al, bl) == 0
  {
  }

  method FillTable(al: seq<string>, bl: seq<string>) returns (lcs: array2<nat>)
    ensures fresh(lcs) && lcs.Length0 == |al| + 1 && lcs.Length1 == |bl| + 1
    ensures forall i, j :: 0 <= i <= |al| && 0 <= j <= |bl| ==> lcs[i, j] == Lcs(al[i..], bl[j..])
  {
    hide Lcs;
    lcs := new nat[|al| + 1, |bl| + 1]((_, _) => 0);
    forall j | 0 <= j <= |bl| ensures Lcs(al[|al|..], bl[j..]) == 0 { TableEdge(al[|al|..], bl[j..]); }
    forall i | 0 <= i <= |al| ensures Lcs(al[i..], bl[|bl|..]) == 0 { TableEdge(al[i..], bl[|bl|..]); }
    var i := |al|;
    while i > 0
      invariant 0 <= i <= |al|
      invariant forall k, l :: i <= k <= |al| && 0 <= l <= |bl| ==> lcs[k, l] == Lcs(al[k..], bl[l..])
      invariant forall k :: 0 <= k < i ==> lcs[k, |bl|] == 0
    {
      i := i - 1;
      var j := |bl|;
      while j > 0
        invariant 0 <= j <= |bl|
        invariant forall k, l :: i < k <= |al| && 0 <= l <= |bl| ==> lcs[k, l] == Lcs(al[k..], bl[l..])
        invariant forall l :: j <= l <= |bl| ==> lcs[i, l] == Lcs(al[i..], bl[l..])
        invariant forall k :: 0 <= k < i ==> lcs[k, |bl|] == 0
      {
        j := j - 1;
        TableStep(al, bl, i, j);
        if al[i] == bl[j] {
          lcs[i, j] := lcs[i + 1, j + 1] + 1;
        } else if lcs[i + 1, j] >= lcs[i, j + 1] {
          lcs[i, j] := lcs[i + 1, j];
        } else {
          lcs[i, j] := lcs[i, j + 1];
        }
      }
    }
  }

  lemma {:induction false} EmptyScript()
    ensures IsDiff([], [], []) && CommonLines([]) == []
  {
  }

  /** One more marked line extends the sides its mark says. */
  lemma {:induction false} AddLine(out: seq<string>, mark: string, line: string, a: seq<string>, b: seq<string>)
    requires mark == "  " || mark == "- " || mark == "+ "
    requires IsDiff(out, a, b)
    ensures
      IsDiff(out + [mark + line], if mark == "+ " then a else a + [line], if mark == "- " then b else b + [line])
    ensures CommonLines(out + [mark + line]) == if mark == "  " then CommonLines(out) + [line] else CommonLines(out)
  {
    SideAppends(out, [mark + line], "- ");
    SideAppends(out, [mark + line], "+ ");
    SideAppends(out, [mark + line], "  ");
    OneLine(mark, line);
  }

  method Backtrace(al: seq<string>, bl: seq<string>, lcs: array2<nat>) returns (out: seq<string>)
    requires lcs.Length0 == |al| + 1 && lcs.Length1 == |bl| + 1
    requires forall i, j :: 0 <= i <= |al| && 0 <= j <= |bl| ==> lcs[i, j] == Lcs(al[i..], bl[j..])
    ensures IsDiff(out, al, bl) && |CommonLines(out)| == Lcs(al, bl)
  {
    hide IsDiff, CommonLines, Lcs;
    EmptyScript();
    out := [];
    var i, j := 0, 0;
    while i < |al| && j < |bl|
      invariant 0 <= i <= |al| && 0 <= j <= |bl|
      invariant IsDiff(out, al[..i], bl[..j])
      invariant |CommonLines(out)| + Lcs(al[i..], bl[j..]) == Lcs(al, bl)
      decreases |al| - i + |bl| - j
    {
      TableStep(al, bl, i, j);
      if al[i] == bl[j] {
        AddLine(out, "  ", al[i], al[..i], bl[..j]);
        out := out + ["  " + al[i]];
        i, j := i + 1, j + 1;
      } else if lcs[i + 1, j] >= lcs[i, j + 1] {
        AddLine(out, "- ", al[i], al[..i], bl[..j]);
        out := out + ["- " + al[i]];
        i := i + 1;
      } else {
        AddLine(out, "+ ", bl[j], al[..i], bl[..j]);
        out := out + ["+ " + bl[j]];
        j := j + 1;
      }
    }
    TableEdge(al[i..], bl[j..]);
    while i < |al|
      invariant 0 <= i <= |al| && 0 <= j <= |bl| && (i == |al| || j == |bl|)
      invariant IsDiff(out, al[..i], bl[..j]) && |CommonLines(out)| == Lcs(al, bl)
    {
      assert al[..i + 1] == al[..i] + [al[i]];
      AddLine(out, "- ", al[i], al[..i], bl[..j]);
      out := out + ["- " + al[i]];
      i := i + 1;
    }
    while j < |bl|
      invariant i == |al| && 0 <= j <= |bl|
      invariant IsDiff(out, al[..i], bl[..j]) && |CommonLines(out)| == Lcs(al, bl)
    {
      assert bl[..j + 1] == bl[..j] + [bl[j]];
      AddLine(out, "+ ", bl[j], al[..i], bl[..j]);
      out := out + ["+ " + bl[j]];
      j := j + 1;
    }
    assert al[..i] == al && bl[..j] == bl;
  }

  /** The diff spells both texts, and no diff of them marks fewer lines as changed. */
  method Diff(a: string, b: string) returns (out: seq<string>)
    ensures IsDiff(out, SplitOn(a, '\n'), SplitOn(b, '\n'))
    ensures JoinWith(OldSide(out), "\n") == a && JoinWith(NewSide(out), "\n") == b
    ensures |CommonLines(out)| == Lcs(SplitOn(a, '\n'), SplitOn(b, '\n'))
    ensures forall other :: IsDiff(other, SplitOn(a, '\n'), SplitOn(b, '\n')) ==> Changes(out) <= Changes(other)
  {
    hide SplitOn, JoinWith, CommonLines, Changes, Lcs, OldSide, NewSide;
    var al, bl := SplitOn(a, '\n'), SplitOn(b, '\n');
    var lcs := FillTable(al, bl);
    out := Backtrace(al, bl, lcs);
    JoinOfSplit(a, '\n');
    JoinOfSplit(b, '\n');
    forall other | IsDiff(other, al, bl) ensures Changes(out) <= Changes(other) {
      NoDiffIsShorter(out, other, al, bl);
    }
  }
}

/** The string operations of Go's strings package that the text formats are built from. */
module Text {

  // ---- strings.Split and strings.Join ----

  function SplitOn(s: string, sep: char): (parts: seq<string>)
    ensures |parts| > 0
  {
    if |s| == 0 then [""]
    else
      var rest := SplitOn(s[1..], sep);
      if s[0] == sep then [""] + rest else [[s[0]] + rest[0]] + rest[1..]
  }

  function JoinWith(parts: seq<string>, sep: string): string
  {
    if |parts| == 0 then "" else if |parts| == 1 then parts[0] else parts[0] + sep + JoinWith(parts[1..], sep)
  }

  lemma {:induction false} JoinOfSplit(s: string, sep: char)
    ensures JoinWith(SplitOn(s, sep), [sep]) == s
  {
    if |s| > 0 {
      JoinOfSplit(s[1..], sep);
      var rest := SplitOn(s[1..], sep);
      if s[0] == sep {
        assert ([""] + rest)[1..] == rest;
        assert "" + [sep] + s[1..] == s;
      } else {
        var lines := [[s[0]] + rest[0]] + rest[1..];
        assert lines[1..] == rest[1..];
        assert [s[0]] + s[1..] == s;
        if |rest| > 1 {
          JoinPrepends([s[0]], rest[0], [sep], JoinWith(rest[1..], [sep]));
        }
      }
    }
  }

  lemma {:induction false} JoinPrepends(a: string, b: string, c: string, d: string)
    ensures a + b + c + d == a + (b + c + d)
  {
  }

  /** A separator splits: what is before it and what is behind it are split on their own. */
  lemma {:induction false} SplitAtSeparator(a: string, sep: char, b: string)
    requires sep !in a
    ensures SplitOn(a + [sep] + b, sep) == [a] + SplitOn(b, sep)
  {
    var s := a + [sep] + b;
    if |a| == 0 {
      assert s[1..] == b;
    } else {
      assert s[1..] == a[1..] + [sep] + b;
      SplitAtSeparator(a[1..], sep, b);
      assert ([a[1..]] + SplitOn(b, sep))[1..] == SplitOn(b, sep);
      assert [a[0]] + a[1..] == a;
    }
  }

  lemma {:induction false} SplitWithout(s: string, sep: char)
    requires sep !in s
    ensures SplitOn(s, sep) == [s]
  {
    if |s| > 0 {
      SplitWithout(s[1..], sep);
      assert [s[0]] + s[1..] == s;
    }
  }

  lemma {:induction false} SplitOfJoin(parts: seq<string>, sep: char)
    requires |parts| > 0 && forall p :: p in parts ==> sep !in p
    ensures SplitOn(JoinWith(parts, [sep]), sep) == parts
  {
    if |parts| == 1 {
      SplitWithout(parts[0], sep);
    } else {
      SplitOfJoin(parts[1..], sep);
      SplitAtSeparator(parts[0], sep, JoinWith(parts[1..], [sep]));
      assert parts == [parts[0]] + parts[1..];
    }
  }

  // ---- strings.TrimSpace ----

  /** Unicode white space. */
  predicate IsSpace(c: char)
  {
    var n := c as int;
    || 9 <= n <= 13 || n == 0x20 || n == 0x85 || n == 0xA0 || n == 0x1680 || 0x2000 <= n <= 0x200A
    || n == 0x2028 || n == 0x2029 || n == 0x202F || n == 0x205F || n == 0x3000
  }

  function TrimLeft(s: string): string { if |s| > 0 && IsSpace(s[0]) then TrimLeft(s[1..]) else s }

  function TrimRight(s: string): string
  {
    if |s| > 0 && IsSpace(s[|s| - 1]) then TrimRight(s[..|s| - 1]) else s
  }

  function TrimSpace(s: string): string { TrimRight(TrimLeft(s)) }

  /** Begins and ends with something visible. */
  predicate Trimmed(s: string) { |s| > 0 && !IsSpace(s[0]) && !IsSpace(s[|s| - 1]) }

  lemma {:induction false} TrimmedStays(s: string)
    ensures Trimmed(s) ==> TrimSpace(s) == s && TrimSpace(" " + s) == s
  {
    if Trimmed(s) {
      assert (" " + s)[1..] == s;
      assert TrimLeft(" " + s) == TrimLeft(s);
    }
  }

  lemma {:induction false} TrimLeftShape(s: string)
    ensures |TrimLeft(s)| <= |s| && (TrimLeft(s) == "" || !IsSpace(TrimLeft(s)[0]))
    ensures TrimLeft(s) == s[|s| - |TrimLeft(s)|..]
  {
    if |s| > 0 && IsSpace(s[0]) { TrimLeftShape(s[1..]); }
  }

  lemma {:induction false} TrimRightShape(s: string)
    ensures |TrimRight(s)| <= |s| && (TrimRight(s) == "" || !IsSpace(TrimRight(s)[|TrimRight(s)| - 1]))
    ensures TrimRight(s) == s[..|TrimRight(s)|]
  {
    if |s| > 0 && IsSpace(s[|s| - 1]) { TrimRightShape(s[..|s| - 1]); }
  }

  /** Trimming leaves nothing, or something visible at both ends; and only the untrimmed get shorter. */
  lemma {:induction false} TrimShape(s: string)
    ensures TrimSpace(s) == "" || Trimmed(TrimSpace(s))
    ensures TrimSpace(s) == s <==> s == "" || Trimmed(s)
    ensures |TrimSpace(s)| <= |s| && (|TrimSpace(s)| == |s| ==> TrimSpace(s) == s)
    ensures forall c :: c in TrimSpace(s) ==> c in s
  {
    TrimLeftShape(s);
    TrimRightShape(TrimLeft(s));
    TrimmedStays(s);
  }

  lemma {:induction false} TrimLeftOfBlank(x: string, c: char)
    requires IsSpace(c)
    ensures TrimLeft(x + [c]) == if TrimLeft(x) == "" then "" else TrimLeft(x) + [c]
  {
    if |x| > 0 && IsSpace(x[0]) {
      assert (x + [c])[1..] == x[1..] + [c];
      TrimLeftOfBlank(x[1..], c);
    } else if x == "" {
      assert (x + [c])[1..] == "";
    }
  }

  /** White space at either end does not matter. */
  lemma {:induction false} TrimIgnoresEdge(x: string, c: char)
    requires IsSpace(c)
    ensures TrimSpace(x + [c]) == TrimSpace(x) && TrimSpace([c] + x) == TrimSpace(x)
  {
    TrimLeftOfBlank(x, c);
    var l := TrimLeft(x);
    assert (l + [c])[..|l|] == l;
    assert ([c] + x)[1..] == x;
  }

  lemma {:induction false} TrimOfTrimmed(x: string)
    ensures TrimSpace(TrimRight(x)) == TrimSpace(x) && TrimSpace(TrimLeft(x)) == TrimSpace(x)
    ensures TrimSpace(TrimSpace(x)) == TrimSpace(x)
  {
    TrimShape(x);
    TrimmedStays(TrimSpace(x));
    TrimLeftShape(x);
    if |x| > 0 && IsSpace(x[|x| - 1]) {
      var y := x[..|x| - 1];
      assert x == y + [x[|x| - 1]];
      TrimOfTrimmed(y);
      TrimIgnoresEdge(y, x[|x| - 1]);
    }
    TrimLeftTwice(x);
  }

  lemma {:induction false} TrimLeftTwice(x: string)
    ensures TrimLeft(TrimLeft(x)) == TrimLeft(x)
  {
    if |x| > 0 && IsSpace(x[0]) { TrimLeftTwice(x[1..]); }
  }

  /** Trimming on the right stops at something visible. */
  lemma {:induction false} TrimRightStops(before: string, w: string)
    requires |before| > 0 && !IsSpace(before[|before| - 1])
    ensures TrimRight(before + w) == before + TrimRight(w)
    decreases |w|
  {
    if |w| == 0 {
      assert before + w == before;
    } else if IsSpace(w[|w| - 1]) {
      assert (before + w)[..|before + w| - 1] == before + w[..|w| - 1];
      TrimRightStops(before, w[..|w| - 1]);
    }
  }

  /** What is split holds only characters of the text, and no separator. */
  lemma {:induction false} SplitCharacters(s: string, sep: char)
    ensures forall i :: 0 <= i < |SplitOn(s, sep)| ==>
      sep !in SplitOn(s, sep)[i] && forall c :: c in SplitOn(s, sep)[i] ==> c in s
  {
    if |s| > 0 {
      SplitCharacters(s[1..], sep);
      assert s == [s[0]] + s[1..];
    }
  }

  lemma {:induction false} SplitFromEnd(s: string, c: char, sep: char)
    requires c != sep
    ensures
      var parts, more := SplitOn(s, sep), SplitOn(s + [c], sep);
      && |more| == |parts| && more[|parts| - 1] == parts[|parts| - 1] + [c]
      && forall i :: 0 <= i < |parts| - 1 ==> more[i] == parts[i]
  {
    if |s| == 0 {
      assert (s + [c])[1..] == "";
    } else {
      assert (s + [c])[1..] == s[1..] + [c];
      SplitFromEnd(s[1..], c, sep);
      var rest := SplitOn(s[1..], sep);
      assert s[0] != sep && |rest| == 1 ==> [s[0]] + (rest[0] + [c]) == ([s[0]] + rest[0]) + [c];
    }
  }

  /** Two lists of parts that differ by white space at the edges of parts. */
  predicate SameTrimmed(a: seq<string>, b: seq<string>)
  {
    |a| == |b| && forall i :: 0 <= i < |a| ==> TrimSpace(a[i]) == TrimSpace(b[i])
  }

  lemma {:induction false} SplitOfTrimmedLeft(s: string, sep: char)
    requires !IsSpace(sep)
    ensures SameTrimmed(SplitOn(TrimLeft(s), sep), SplitOn(s, sep))
  {
    hide TrimSpace;
    if |s| > 0 && IsSpace(s[0]) {
      SplitOfTrimmedLeft(s[1..], sep);
      TrimIgnoresEdge(SplitOn(s[1..], sep)[0], s[0]);
    }
  }

  lemma {:induction false} SplitOfTrimmedRight(s: string, sep: char)
    requires !IsSpace(sep)
    ensures SameTrimmed(SplitOn(TrimRight(s), sep), SplitOn(s, sep))
  {
    hide TrimSpace;
    if |s| > 0 && IsSpace(s[|s| - 1]) {
      var y := s[..|s| - 1];
      assert s == y + [s[|s| - 1]];
      SplitOfTrimmedRight(y, sep);
      SplitFromEnd(y, s[|s| - 1], sep);
      var parts := SplitOn(y, sep);
      TrimIgnoresEdge(parts[|parts| - 1], s[|s| - 1]);
    }
  }

  /** Trimming a text before it is split changes the parts only at their edges. */
  lemma {:induction false} SplitOfTrimmed(s: string, sep: char)
    requires !IsSpace(sep)
    ensures SameTrimmed(SplitOn(TrimSpace(s), sep), SplitOn(s, sep))
  {
    SplitOfTrimmedLeft(s, sep);
    SplitOfTrimmedRight(TrimLeft(s), sep);
  }

  // ---- strings.TrimRight(s, "\n") ----

  function TrimNewlines(s: string): string { if |s| > 0 && s[|s| - 1] == '\n' then TrimNewlines(s[..|s| - 1]) else s }

  lemma {:induction false} TrimNewlinesStays(s: string)
    ensures TrimNewlines(TrimNewlines(s)) == TrimNewlines(s)
    ensures TrimNewlines(TrimNewlines(s) + "\n") == TrimNewlines(s)
  {
    if |s| > 0 && s[|s| - 1] == '\n' {
      TrimNewlinesStays(s[..|s| - 1]);
    } else {
      assert (s + "\n")[..|s|] == s;
    }
  }

  /** The first place of `c` in `s`, or the length of `s`. */
  function IndexOf(s: string, c: char): (i: nat)
    ensures i <= |s| && (i < |s| ==> s[i] == c) && forall k :: 0 <= k < i ==> s[k] != c
  {
    if |s| == 0 || s[0] == c then 0 else IndexOf(s[1..], c) + 1
  }

  // ---- strconv.Itoa ----

  function Digits(n: nat): (s: string)
    ensures |s| > 0 && forall c :: c in s ==> '0' <= c <= '9'
  {
    if n < 10 then [('0' as int + n) as char] else Digits(n / 10) + [('0' as int + n % 10) as char]
  }

  function Itoa(n: int): string { if n < 0 then "-" + Digits(-n) else Digits(n) }

  lemma {:induction false} DigitsInjective(m: nat, n: nat)
    requires Digits(m) == Digits(n)
    ensures m == n
  {
    var a, b := Digits(m), Digits(n);
    assert a[|a| - 1] == ('0' as int + m % 10) as char && b[|b| - 1] == ('0' as int + n % 10) as char;
    assert m % 10 == n % 10;
    if m >= 10 && n >= 10 {
      assert a[..|a| - 1] == Digits(m / 10) && b[..|b| - 1] == Digits(n / 10);
      DigitsInjective(m / 10, n / 10);
    } else {
      assert m < 10 ==> |a| == 1;
      assert n < 10 ==> |b| == 1;
    }
  }

  lemma {:induction false} ItoaInjective(m: int, n: int)
    requires Itoa(m) == Itoa(n)
    ensures m == n
  {
    var a, b := Digits(if m < 0 then -m else m), Digits(if n < 0 then -n else n);
    assert a[0] in a && b[0] in b;
    assert m < 0 ==> Itoa(m)[0] == '-' && Itoa(m)[1..] == Digits(-m);
    assert n < 0 ==> Itoa(n)[0] == '-' && Itoa(n)[1..] == Digits(-n);
    if m < 0 && n < 0 { DigitsInjective(-m, -n); } else if m >= 0 && n >= 0 { DigitsInjective(m, n); }
  }
}

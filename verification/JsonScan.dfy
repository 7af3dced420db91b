/** The scan-based attribute lookup of internal/store/metrics.go, against the JSON objects it is run on. */
module JsonScan {
  import opened Common
  import opened Text

  // ---- The scanner ----

  predicate MatchesAt(text: string, needle: string, i: nat)
  {
    i + |needle| <= |text| && text[i..i + |needle|] == needle
  }

  /** The first place from `i` on where `needle` stands. */
  function FindFrom(text: string, needle: string, i: nat): (r: Option<nat>)
    ensures r.Some? ==> i <= r.value && MatchesAt(text, needle, r.value)
    ensures r.Some? ==> forall k :: i <= k < r.value ==> !MatchesAt(text, needle, k)
    ensures r.None? ==> forall k :: i <= k ==> !MatchesAt(text, needle, k)
    decreases |text| - i
  {
    if i + |needle| > |text| then None
    else if MatchesAt(text, needle, i) then Some(i)
    else FindFrom(text, needle, i + 1)
  }

  method IndexOfText(haystack: string, needle: string) returns (r: int)
    ensures r == match FindFrom(haystack, needle, 0) { case Some(i) => i case None => -1 }
  {
    var n := |needle|;
    if n == 0 { return 0; }
    if n > |haystack| { return -1; }
    var i := 0;
    while i + n <= |haystack|
      invariant FindFrom(haystack, needle, i) == FindFrom(haystack, needle, 0)
      decreases |haystack| - i
    {
      if haystack[i..i + n] == needle {
        return i;
      }
      i := i + 1;
    }
    return -1;
  }

  function SkipBlanks(s: string): string
  {
    if |s| > 0 && (s[0] == ' ' || s[0] == '\t') then SkipBlanks(s[1..]) else s
  }

  /** The quote that closes the string opened at the front, from `j` on, skipping what a backslash escapes. */
  function CloseFrom(s: string, j: nat): (r: Option<nat>)
    ensures r.Some? ==> j <= r.value < |s|
    decreases |s| - j
  {
    if j >= |s| then None
    else if s[j] == '\\' then CloseFrom(s, j + 2)
    else if s[j] == '"' then Some(j)
    else CloseFrom(s, j + 1)
  }

  /** Where a bare value ends: at a comma, a closing brace, or the end. */
  function EndFrom(s: string, j: nat): (r: nat)
    requires j <= |s|
    ensures j <= r <= |s|
    decreases |s| - j
  {
    if j == |s| || s[j] == ',' || s[j] == '}' then j else EndFrom(s, j + 1)
  }

  /** What is read behind a matched key. */
  function ReadValue(s: string): Option<string>
  {
    var rest := SkipBlanks(s);
    if rest == "" then None
    else if rest[0] == '"' then
      var close := CloseFrom(rest, 1);
      if close.Some? then Some(rest[..close.value + 1]) else None
    else Some(rest[..EndFrom(rest, 0)])
  }

  function Needle(key: string): string { "\"" + key + "\":" }

  /** What the lookup answers. */
  function RawOf(text: string, key: string): Option<string>
  {
    match FindFrom(text, Needle(key), 0)
    case None => None
    case Some(i) => ReadValue(text[i + |Needle(key)|..])
  }

  method ExtractRaw(text: string, key: string) returns (r: Option<string>)
    ensures r == RawOf(text, key)
  {
    hide FindFrom;
    var needle := "\"" + key + "\":";
    var i := IndexOfText(text, needle);
    if i < 0 { return None; }
    var rest := text[i + |needle|..];
    ghost var behind := rest;
    while |rest| > 0 && (rest[0] == ' ' || rest[0] == '\t')
      invariant SkipBlanks(rest) == SkipBlanks(behind)
      decreases |rest|
    {
      rest := rest[1..];
    }
    if |rest| == 0 { return None; }
    if rest[0] == '"' {
      var j := 1;
      while j < |rest|
        invariant CloseFrom(rest, j) == CloseFrom(rest, 1)
        decreases |rest| - j
      {
        if rest[j] == '\\' {
          j := j + 2;
          continue;
        }
        if rest[j] == '"' {
          return Some(rest[..j + 1]);
        }
        j := j + 1;
      }
      return None;
    }
    var j := 0;
    while j < |rest|
      invariant j <= |rest| && EndFrom(rest, j) == EndFrom(rest, 0)
    {
      if rest[j] == ',' || rest[j] == '}' {
        return Some(rest[..j]);
      }
      j := j + 1;
    }
    assert rest[..|rest|] == rest;
    return Some(rest);
  }

  // ---- Integers ----

  predicate IsDigit(c: char) { '0' <= c <= '9' }

  /** The number the leading digits of `s` continue from `n`. */
  function Continue(n: nat, s: string): nat
    decreases |s|
  {
    if |s| > 0 && IsDigit(s[0]) then Continue(n * 10 + (s[0] as int - '0' as int), s[1..]) else n
  }

  function IntOf(s: string): Option<int>
  {
    var digits := if |s| > 0 && s[0] == '-' then s[1..] else s;
    if |digits| > 0 && IsDigit(digits[0]) then
      var n: int := Continue(0, digits);
      Some(if s[0] == '-' then -n else n)
    else None
  }

  method ParseIntPrefix(s: string) returns (r: Option<int>)
    ensures r == IntOf(s)
  {
    if s == "" { return None; }
    var sign, i := 1, 0;
    if s[0] == '-' {
      sign, i := -1, 1;
    }
    ghost var first := i;
    var n, started := 0, false;
    while i < |s|
      invariant first <= i <= |s| && n >= 0
      invariant started <==> i > first
      invariant i > first ==> IsDigit(s[first])
      invariant Continue(n, s[i..]) == Continue(0, s[first..])
    {
      var c := s[i];
      if c < '0' || c > '9' { break; }
      assert s[i..][1..] == s[i + 1..];
      n := n * 10 + (c as int - '0' as int);
      started := true;
      i := i + 1;
    }
    assert s[0..] == s;
    if !started { return None; }
    return Some(sign * n);
  }

  method ExtractInt(text: string, key: string) returns (r: Option<int>)
    ensures r == match RawOf(text, key) { case Some(v) => IntOf(v) case None => None }
  {
    var v := ExtractRaw(text, key);
    if v.None? { return None; }
    r := ParseIntPrefix(v.value);
  }

  lemma {:induction false} DigitsAppend(m: nat, rest: string)
    ensures Continue(0, Digits(m) + rest) == Continue(m, rest)
  {
    if m < 10 {
      assert (Digits(m) + rest)[1..] == rest;
    } else {
      var d := [('0' as int + m % 10) as char];
      DigitsAppend(m / 10, d + rest);
      assert Digits(m) + rest == Digits(m / 10) + (d + rest);
      assert (d + rest)[1..] == rest;
    }
  }

  /** A printed integer, with whatever fraction behind it, is read as that integer. */
  lemma {:induction false} IntReadsBack(n: int, rest: string)
    requires rest == "" || !IsDigit(rest[0])
    ensures IntOf(Itoa(n) + rest) == Some(n)
  {
    var s := Itoa(n) + rest;
    var m := if n < 0 then -n else n;
    DigitsAppend(m, rest);
    assert Digits(m)[0] in Digits(m);
    assert n < 0 ==> s[1..] == Digits(m) + rest;
  }

  /** Anything that does not begin with a digit, or a minus and a digit, is read as no integer. */
  lemma {:induction false} NoDigitNoInt(s: string)
    ensures IntOf(s).Some? <==> (|s| > 0 && IsDigit(s[0])) || (|s| > 1 && s[0] == '-' && IsDigit(s[1]))
  {
  }
}

/**
 * Flat JSON objects printed without white space, strings escaped as section 7 of RFC 8259 has it, and what the scan
 * of internal/store/metrics.go finds in them.
 */
module JsonObjects {
  import opened Common
  import opened Text
  import opened JsonScan

  // ---- Objects and their printed form ----

  /** A string by its printed body, or any other scalar by its printed text. */
  datatype Scalar = Quoted(body: string) | Bare(text: string)

  datatype Value = One(s: Scalar) | Many(items: seq<Scalar>)

  datatype Member = Member(key: string, value: Value)

  /** The inside of a printed string: no bare quote, and every backslash escapes something. */
  predicate IsBody(b: string)
  {
    if |b| == 0 then true
    else if b[0] == '\\' then |b| >= 2 && IsBody(b[2..])
    else b[0] != '"' && IsBody(b[1..])
  }

  /** Text without quotes and backslashes: as a key, one that prints as itself. */
  predicate IsPlain(k: string) { '"' !in k && '\\' !in k }

  /** A printed key: whatever it escapes, there is no quote in it. */
  predicate IsKeyBody(k: string) { IsBody(k) && '"' !in k }

  /** A number, true, false or null: visible, and made of none of the characters that delimit. */
  predicate IsBare(t: string)
  {
    && |t| > 0 && t[0] != ' ' && t[0] != '\t'
    && forall i :: 0 <= i < |t| ==> t[i] != '"' && t[i] != '\\' && t[i] != ',' && t[i] != '}'
  }

  predicate IsScalar(s: Scalar) { if s.Quoted? then IsBody(s.body) else IsBare(s.text) }

  predicate IsValue(v: Value)
  {
    if v.One? then IsScalar(v.s) else forall i :: 0 <= i < |v.items| ==> IsScalar(v.items[i])
  }

  /** An object as the encoder prints it: quote-free keys, none twice. */
  predicate IsObject(obj: seq<Member>)
  {
    && (forall i :: 0 <= i < |obj| ==> IsKeyBody(obj[i].key) && IsValue(obj[i].value))
    && (forall i, j :: 0 <= i < j < |obj| ==> obj[i].key != obj[j].key)
  }

  function ScalarText(s: Scalar): string { if s.Quoted? then "\"" + s.body + "\"" else s.text }

  // ---- Printing in pieces: scalars, and the text between them ----

  /** A printed object is a sequence of these: Quoted pieces are its strings, everything else is Bare. */
  function Commas(items: seq<Scalar>): seq<Scalar>
  {
    if |items| <= 1 then items else [items[0], Bare(",")] + Commas(items[1..])
  }

  function ValuePieces(v: Value): seq<Scalar>
  {
    if v.One? then [v.s] else [Bare("[")] + Commas(v.items) + [Bare("]")]
  }

  /** A member, and what is printed behind it. */
  function MemberPieces(m: Member, rest: seq<Scalar>): seq<Scalar>
  {
    [Quoted(m.key)] + ([Bare(":")] + (ValuePieces(m.value) + rest))
  }

  /** The members from some place on, up to the closing brace. */
  function RestPieces(obj: seq<Member>): seq<Scalar>
    decreases |obj|, 1
  {
    if |obj| == 0 then [Bare("}")] else MemberPieces(obj[0], After(obj))
  }

  /** What is printed behind the first member. */
  function After(obj: seq<Member>): seq<Scalar>
    requires |obj| > 0
    decreases |obj|, 0
  {
    if |obj| > 1 then [Bare(",")] + RestPieces(obj[1..]) else [Bare("}")]
  }

  function ObjectPieces(obj: seq<Member>): seq<Scalar> { [Bare("{")] + RestPieces(obj) }

  function Flatten(ps: seq<Scalar>): string
  {
    if |ps| == 0 then "" else ScalarText(ps[0]) + Flatten(ps[1..])
  }

  function PrintObject(obj: seq<Member>): string { Flatten(ObjectPieces(obj)) }

  // ---- Where a key can seem to stand ----

  const DELIMITERS := ":,]}"

  /** A string is followed by text that starts with a delimiter: a colon if it is a key, and then it is quote-free. */
  predicate IsTidy(ps: seq<Scalar>)
  {
    if |ps| == 0 then true
    else if ps[0].Bare? then |ps[0].text| > 0 && IsPlain(ps[0].text) && IsTidy(ps[1..])
    else
      && IsBody(ps[0].body) && |ps| > 1 && ps[1].Bare? && IsTidy(ps[1..])
      && ps[1].text[0] in DELIMITERS && (ps[1].text[0] == ':' ==> '"' !in ps[0].body)
  }

  /** The text up to the next string. */
  function Gap(ps: seq<Scalar>): string
  {
    if |ps| == 0 || ps[0].Quoted? then "" else ps[0].text + Gap(ps[1..])
  }

  /** The pieces from the next string on. */
  function AtString(ps: seq<Scalar>): seq<Scalar>
  {
    if |ps| == 0 || ps[0].Quoted? then ps else AtString(ps[1..])
  }

  /** The string at the front is the key looked for, with its colon. */
  predicate IsKey(ps: seq<Scalar>, key: string)
  {
    |ps| > 1 && ps[0] == Quoted(key) && ps[1].Bare? && |ps[1].text| > 0 && ps[1].text[0] == ':'
  }

  predicate BeginsWithColon(s: Scalar) { s.Quoted? && |s.body| > 0 && s.body[0] == ':' }

  /** The text behind the string at the front spells the key, and the string after it begins with a colon. */
  predicate IsColonGap(ps: seq<Scalar>, key: string)
  {
    && |ps| > 0 && ps[0].Quoted? && Gap(ps[1..]) == key
    && |AtString(ps[1..])| > 0 && BeginsWithColon(AtString(ps[1..])[0])
  }

  lemma {:induction false} AtStringIsString(ps: seq<Scalar>)
    ensures |AtString(ps)| > 0 ==> AtString(ps)[0].Quoted?
    ensures Flatten(ps) == Gap(ps) + Flatten(AtString(ps))
    ensures IsTidy(ps) ==> IsTidy(AtString(ps)) && IsPlain(Gap(ps))
  {
    if |ps| > 0 && ps[0].Bare? { AtStringIsString(ps[1..]); }
  }

  // ---- Every place the key can be found ----

  lemma {:induction false} NeedleShape(text: string, key: string, p: nat)
    ensures MatchesAt(text, Needle(key), p) <==>
      && p + |key| + 3 <= |text| && text[p] == '"' && text[p + 1..p + 1 + |key|] == key
      && text[p + 1 + |key|] == '"' && text[p + 2 + |key|] == ':'
  {
    var n := Needle(key);
    assert n[0] == '"' && n[1..1 + |key|] == key && n[1 + |key|] == '"' && n[2 + |key|] == ':';
    if p + |n| <= |text| {
      var w := text[p..p + |n|];
      assert forall i :: 0 <= i < |n| ==> w[i] == text[p + i];
      assert w[1..1 + |key|] == text[p + 1..p + 1 + |key|];
      assert w[0] == text[p] && w[1 + |key|] == text[p + 1 + |key|] && w[2 + |key|] == text[p + 2 + |key|];
      if w[0] == '"' && w[1..1 + |key|] == key && w[1 + |key|] == '"' && w[2 + |key|] == ':' {
        assert w == [w[0]] + w[1..1 + |key|] + [w[1 + |key|], w[2 + |key|]];
        assert n == [n[0]] + n[1..1 + |key|] + [n[1 + |key|], n[2 + |key|]];
      }
    }
  }

  lemma {:induction false} KeyCharacters(text: string, key: string, p: nat)
    requires IsPlain(key) && MatchesAt(text, Needle(key), p)
    ensures p + |key| + 3 <= |text|
    ensures forall i :: p < i < p + 1 + |key| ==> text[i] != '"' && text[i] != '\\'
  {
    NeedleShape(text, key, p);
    forall i | p < i < p + 1 + |key| ensures text[i] != '"' && text[i] != '\\' {
      assert text[i] == text[p + 1..p + 1 + |key|][i - p - 1];
    }
  }

  /** A quote-free key ends at the first quote behind it. */
  lemma {:induction false} KeyEndsAtQuote(text: string, key: string, p: nat, q: nat)
    requires IsPlain(key) && MatchesAt(text, Needle(key), p) && p < q < |text| && text[q] == '"'
    ensures p + 1 + |key| <= q
  {
    KeyCharacters(text, key, p);
  }

  lemma {:induction false} QuoteIsEscaped(b: string, i: nat)
    requires IsBody(b) && i < |b| && b[i] == '"'
    ensures i > 0 && b[i - 1] == '\\'
    decreases |b|
  {
    if b[0] == '\\' {
      if i > 1 { QuoteIsEscaped(b[2..], i - 2); }
    } else {
      QuoteIsEscaped(b[1..], i - 1);
    }
  }

  /** A plain key is not preceded by a quote of its own that is escaped: it ends at a bare quote. */
  lemma {:induction false} KeyEndsBare(b: string, rest: string, key: string, p: nat)
    requires IsBody(b) && IsPlain(key) && p <= |b|
    requires MatchesAt("\"" + b + "\"" + rest, Needle(key), p)
    ensures p + 1 + |key| == |b| + 1
  {
    var text := "\"" + b + "\"" + rest;
    var q := p + 1 + |key|;
    assert text[|b| + 1] == '"' && forall i :: 0 <= i < |b| ==> text[i + 1] == b[i];
    NeedleShape(text, key, p);
    KeyCharacters(text, key, p);
    KeyEndsAtQuote(text, key, p, |b| + 1);
    if q <= |b| { QuoteIsEscaped(b, q - 1); }
  }

  /** At a string's opening quote the needle stands exactly when the string is the key, with its colon. */
  lemma {:induction false} OpeningMatch(b: string, rest: string, key: string)
    requires IsBody(b) && IsPlain(key)
    ensures MatchesAt("\"" + b + "\"" + rest, Needle(key), 0) <==> b == key && |rest| > 0 && rest[0] == ':'
  {
    var text := "\"" + b + "\"" + rest;
    assert text[0] == '"' && text[1..1 + |b|] == b && text[1 + |b|] == '"';
    assert |rest| > 0 ==> text[2 + |b|] == rest[0];
    NeedleShape(text, key, 0);
    if MatchesAt(text, Needle(key), 0) {
      KeyEndsBare(b, rest, key, 0);
    }
  }

  /** Inside a string it never stands. */
  lemma {:induction false} InsideMatch(b: string, rest: string, key: string, p: nat)
    requires IsBody(b) && IsPlain(key) && 1 <= p <= |b|
    requires |rest| > 0 && rest[0] == ':' ==> '"' !in b
    ensures !MatchesAt("\"" + b + "\"" + rest, Needle(key), p)
  {
    var text := "\"" + b + "\"" + rest;
    assert text[p] == b[p - 1] && (|rest| > 0 ==> text[2 + |b|] == rest[0]);
    NeedleShape(text, key, p);
    if MatchesAt(text, Needle(key), p) {
      KeyEndsBare(b, rest, key, p);
    }
  }

  /** At a closing quote it stands exactly when the text up to the next string is the key, and that string begins with a colon. */
  lemma {:induction false} ClosingMatch(gap: string, rest: string, key: string)
    requires IsPlain(key) && '"' !in gap && (rest == "" || rest[0] == '"')
    ensures MatchesAt("\"" + gap + rest, Needle(key), 0) <==> gap == key && |rest| > 1 && rest[1] == ':'
  {
    var text := "\"" + gap + rest;
    NeedleShape(text, key, 0);
    assert forall i :: 0 <= i < |gap| ==> text[i + 1] == gap[i];
    assert text[1..1 + |gap|] == gap;
    assert forall i :: 0 <= i < |rest| ==> text[1 + |gap| + i] == rest[i];
    if MatchesAt(text, Needle(key), 0) {
      if rest != "" { KeyEndsAtQuote(text, key, 0, 1 + |gap|); }
    }
  }

  lemma {:induction false} MatchShifts(a: string, b: string, needle: string, p: nat)
    ensures MatchesAt(a + b, needle, |a| + p) <==> MatchesAt(b, needle, p)
  {
    if p + |needle| <= |b| {
      assert (a + b)[|a| + p..|a| + p + |needle|] == b[p..p + |needle|];
    }
  }

  /** The places of the needle at or in the piece at the front. */
  lemma {:induction false} FrontPiece(ps: seq<Scalar>, key: string, p: nat)
    requires IsTidy(ps) && |ps| > 0 && IsPlain(key)
    ensures ps[0].Bare? && p < |ps[0].text| ==> !MatchesAt(Flatten(ps), Needle(key), p)
    ensures ps[0].Quoted? && p < |ps[0].body| + 2 ==>
      (MatchesAt(Flatten(ps), Needle(key), p) <==>
        (p == 0 && IsKey(ps, key)) || (p == |ps[0].body| + 1 && IsColonGap(ps, key)))
  {
    var rest := Flatten(ps[1..]);
    if ps[0].Bare? {
      hide IsPlain;
      NeedleShape(Flatten(ps), key, p);
    } else if p < |ps[0].body| + 2 {
      var b := ps[0].body;
      FirstOfRest(ps);
      if p == 0 {
        hide MatchesAt, Needle, IsPlain;
        OpeningMatch(b, rest, key);
      } else if p <= |b| {
        hide MatchesAt, Needle;
        InsideMatch(b, rest, key, p);
      } else {
        ClosingPiece(ps, key);
      }
    }
  }

  lemma {:induction false} ClosingPiece(ps: seq<Scalar>, key: string)
    requires IsTidy(ps) && |ps| > 0 && ps[0].Quoted? && IsPlain(key)
    ensures MatchesAt(Flatten(ps), Needle(key), |ps[0].body| + 1) <==> IsColonGap(ps, key)
  {
    var at, gap := AtString(ps[1..]), Gap(ps[1..]);
    AtStringIsString(ps[1..]);
    FlattenedString(at);
    hide MatchesAt, Needle, IsPlain, IsTidy, AtString, Gap;
    var before, tail := "\"" + ps[0].body, "\"" + gap + Flatten(at);
    assert Flatten(ps) == before + tail by {
      assert Flatten(ps) == before + "\"" + Flatten(ps[1..]);
    }
    ClosingMatch(gap, Flatten(at), key);
    MatchShifts(before, tail, Needle(key), 0);
  }

  lemma {:induction false} FirstOfRest(ps: seq<Scalar>)
    requires IsTidy(ps) && |ps| > 0 && ps[0].Quoted?
    ensures |ps| > 1 && ps[1].Bare? && |ps[1].text| > 0 && |Flatten(ps[1..])| > 0
    ensures Flatten(ps[1..])[0] == ps[1].text[0]
  {
  }

  lemma {:induction false} FlattenedString(at: seq<Scalar>)
    requires |at| > 0 ==> at[0].Quoted?
    ensures at == [] ==> Flatten(at) == ""
    ensures at != [] ==> |Flatten(at)| > 1 && Flatten(at)[0] == '"' && (Flatten(at)[1] == ':' <==> BeginsWithColon(at[0]))
  {
    if at != [] {
      assert Flatten(at)[1] == (at[0].body + "\"")[0];
    }
  }

  /** The first place a plain key is found at: as a key, or as text before a string that begins with a colon. */
  function FoundAt(ps: seq<Scalar>, key: string): Option<nat>
  {
    if |ps| == 0 then None
    else if ps[0].Quoted? && IsKey(ps, key) then Some(0)
    else if ps[0].Quoted? && IsColonGap(ps, key) then Some(|ps[0].body| + 1)
    else
      match FoundAt(ps[1..], key)
      case None => None
      case Some(i) => Some(|ScalarText(ps[0])| + i)
  }

  lemma {:induction false} FoundIsFirst(ps: seq<Scalar>, key: string, p: nat)
    requires IsTidy(ps) && IsPlain(key)
    ensures FoundAt(ps, key).Some? ==> MatchesAt(Flatten(ps), Needle(key), FoundAt(ps, key).value)
    ensures FoundAt(ps, key).Some? && p < FoundAt(ps, key).value ==> !MatchesAt(Flatten(ps), Needle(key), p)
    ensures FoundAt(ps, key).None? ==> !MatchesAt(Flatten(ps), Needle(key), p)
    decreases |ps|
  {
    hide MatchesAt, IsKey, IsColonGap, Needle;
    if |ps| == 0 {
      EmptyHasNone(key, p);
    } else {
      var front, rest := ScalarText(ps[0]), Flatten(ps[1..]);
      FrontPiece(ps, key, p);
      FrontPiece(ps, key, 0);
      if ps[0].Quoted? { FrontPiece(ps, key, |ps[0].body| + 1); }
      if p >= |front| {
        FoundIsFirst(ps[1..], key, p - |front|);
        MatchShifts(front, rest, Needle(key), p - |front|);
      } else {
        FoundIsFirst(ps[1..], key, 0);
      }
      if FoundAt(ps[1..], key).Some? {
        MatchShifts(front, rest, Needle(key), FoundAt(ps[1..], key).value);
      }
    }
  }

  lemma {:induction false} EmptyHasNone(key: string, p: nat)
    ensures !MatchesAt("", Needle(key), p)
  {
  }

  /** The scan finds the first place. */
  lemma {:induction false} FirstPlaceIsFound(text: string, needle: string, f: Option<nat>)
    requires f.Some? ==> MatchesAt(text, needle, f.value)
    requires forall k: nat :: (f.Some? ==> k < f.value) ==> !MatchesAt(text, needle, k)
    ensures FindFrom(text, needle, 0) == f
  {
    hide FindFrom, MatchesAt;
    var r := FindFrom(text, needle, 0);
  }

  /** So it stops where FoundAt says. */
  lemma {:induction false} FindIsFound(ps: seq<Scalar>, key: string)
    requires IsTidy(ps) && IsPlain(key)
    ensures FindFrom(Flatten(ps), Needle(key), 0) == FoundAt(ps, key)
  {
    hide FindFrom, MatchesAt, IsTidy, FoundAt, Flatten, Needle, IsPlain;
    var f := FoundAt(ps, key);
    FoundIsFirst(ps, key, 0);
    forall k: nat | f.Some? ==> k < f.value ensures !MatchesAt(Flatten(ps), Needle(key), k) {
      FoundIsFirst(ps, key, k);
    }
    FirstPlaceIsFound(Flatten(ps), Needle(key), f);
  }

  // ---- What is read there ----

  /** The pieces from the one the key is found at on. */
  function Hit(ps: seq<Scalar>, key: string): (h: seq<Scalar>)
    ensures h != [] ==> h[0].Quoted? && (IsKey(h, key) || IsColonGap(h, key))
  {
    if |ps| == 0 then [] else if ps[0].Quoted? && (IsKey(ps, key) || IsColonGap(ps, key)) then ps else Hit(ps[1..], key)
  }

  /** What stands behind the needle in the pieces it is found at. */
  lemma {:induction false} BehindNeedle(ps: seq<Scalar>, key: string)
    requires IsTidy(ps) && IsPlain(key)
    ensures FoundAt(ps, key).Some? <==> Hit(ps, key) != []
    ensures FoundAt(ps, key).Some? ==>
      var i, h := FoundAt(ps, key).value, Hit(ps, key);
      && IsTidy(h) && i + |Needle(key)| <= |Flatten(ps)|
      && Flatten(ps)[i + |Needle(key)|..] ==
           if IsKey(h, key) then Flatten(h[1..])[1..] else Flatten(AtString(h[1..]))[2..]
  {
    hide IsKey, IsColonGap;
    if |ps| > 0 {
      if Hit(ps, key) == ps {
        FoundIsFirst(ps, key, 0);
        hide Hit;
        BehindFront(ps, key);
      } else {
        BehindNeedle(ps[1..], key);
        var a, b := ScalarText(ps[0]), Flatten(ps[1..]);
        if FoundAt(ps[1..], key).Some? {
          var i := FoundAt(ps[1..], key).value + |Needle(key)|;
          assert (a + b)[|a| + i..] == b[i..];
        }
      }
    }
  }

  lemma {:induction false} BehindFront(ps: seq<Scalar>, key: string)
    requires IsTidy(ps) && IsPlain(key) && |ps| > 0 && ps[0].Quoted? && (IsKey(ps, key) || IsColonGap(ps, key))
    ensures
      var i := FoundAt(ps, key).value;
      && |Flatten(ps[1..])| > 0
      && (!IsKey(ps, key) ==> |Flatten(AtString(ps[1..]))| > 1)
      && i + |Needle(key)| <= |Flatten(ps)|
      && Flatten(ps)[i + |Needle(key)|..] ==
           if IsKey(ps, key) then Flatten(ps[1..])[1..] else Flatten(AtString(ps[1..]))[2..]
  {
    var b, rest := ps[0].body, Flatten(ps[1..]);
    FirstOfRest(ps);
    assert Flatten(ps) == "\"" + b + "\"" + rest;
    if IsKey(ps, key) {
      assert (("\"" + b + "\"") + rest)[|b| + 3..] == rest[1..];
    } else {
      var at := AtString(ps[1..]);
      AtStringIsString(ps[1..]);
      FlattenedString(at);
      assert (("\"" + b + "\"") + (key + Flatten(at)))[|b| + 1 + |key| + 3..] == Flatten(at)[2..];
    }
  }

  lemma {:induction false} RawIsBehind(ps: seq<Scalar>, key: string)
    requires IsTidy(ps) && IsPlain(key)
    ensures
      var h := Hit(ps, key);
      && (h != [] && IsKey(h, key) ==> |Flatten(h[1..])| > 0 && RawOf(Flatten(ps), key) == ReadValue(Flatten(h[1..])[1..]))
      && (h != [] && !IsKey(h, key) ==>
            |Flatten(AtString(h[1..]))| > 1 && RawOf(Flatten(ps), key) == ReadValue(Flatten(AtString(h[1..]))[2..]))
      && (h == [] ==> RawOf(Flatten(ps), key) == None)
  {
    hide ReadValue, Flatten, FindFrom, FoundAt, Hit, IsTidy, IsKey, IsColonGap, AtString, Needle, IsPlain;
    FindIsFound(ps, key);
    BehindNeedle(ps, key);
    var h := Hit(ps, key);
    if h != [] { BehindFront(h, key); }
  }

  /** The quote behind a string body closes it. */
  lemma {:induction false} CloseOfBody(before: string, b: string, after: string)
    requires IsBody(b)
    ensures CloseFrom(before + b + "\"" + after, |before|) == Some(|before| + |b|)
    decreases |b|
  {
    var s := before + b + "\"" + after;
    if |b| == 0 {
      assert s[|before|] == '"';
    } else if b[0] == '\\' {
      assert s[|before|] == '\\';
      assert (before + b[..2]) + b[2..] + "\"" + after == s by { assert b == b[..2] + b[2..]; }
      CloseOfBody(before + b[..2], b[2..], after);
    } else {
      assert s[|before|] == b[0];
      assert (before + b[..1]) + b[1..] + "\"" + after == s by { assert b == b[..1] + b[1..]; }
      CloseOfBody(before + b[..1], b[1..], after);
    }
  }

  lemma {:induction false} EndOfBare(s: string, t: string, j: nat)
    requires j <= |t| < |s| && t == s[..|t|] && (s[|t|] == ',' || s[|t|] == '}')
    requires forall i :: 0 <= i < |t| ==> t[i] != ',' && t[i] != '}'
    ensures EndFrom(s, j) == |t|
    decreases |t| - j
  {
    if j < |t| {
      assert s[j] == t[j];
      EndOfBare(s, t, j + 1);
    }
  }

  /** Behind a key stands its value, and it is read as printed. */
  lemma {:induction false} ScalarIsRead(s: Scalar, more: seq<Scalar>)
    requires IsScalar(s) && |more| > 0 && more[0].Bare? && |more[0].text| > 0
    requires more[0].text[0] == ',' || more[0].text[0] == '}'
    ensures ReadValue(Flatten([s] + more)) == Some(ScalarText(s))
  {
    var text := Flatten([s] + more);
    assert ([s] + more)[1..] == more;
    assert text == ScalarText(s) + Flatten(more);
    if s.Quoted? {
      assert text == "\"" + s.body + "\"" + Flatten(more);
      CloseOfBody("\"", s.body, Flatten(more));
      assert text[..|s.body| + 2] == ScalarText(s);
    } else {
      assert text[|s.text|] == more[0].text[0] && text[..|s.text|] == s.text && text[0] == s.text[0];
      EndOfBare(text, s.text, 0);
    }
  }

  // ---- Objects, piece by piece ----

  /** Nowhere in the pieces does the key stand as a key. */
  predicate KeyFree(ps: seq<Scalar>, key: string) { |ps| == 0 || (!IsKey(ps, key) && KeyFree(ps[1..], key)) }

  /** Somewhere the text between two strings spells the key, and the second string begins with a colon. */
  predicate HasColonGap(ps: seq<Scalar>, key: string) { |ps| > 0 && (IsColonGap(ps, key) || HasColonGap(ps[1..], key)) }

  /** `target` is the end of `all`, and nowhere before it does the key stand as a key. */
  predicate KeyFreeUntil(all: seq<Scalar>, target: seq<Scalar>, key: string)
  {
    all == target || (|all| > 0 && !IsKey(all, key) && KeyFreeUntil(all[1..], target, key))
  }

  /** Before `target`, the text between two strings spells the key, and the second string begins with a colon. */
  predicate GapUntil(all: seq<Scalar>, target: seq<Scalar>, key: string)
  {
    all != target && |all| > 0 && (IsColonGap(all, key) || GapUntil(all[1..], target, key))
  }

  /** What holds of `rest` holds of `all`. */
  predicate Passes(all: seq<Scalar>, rest: seq<Scalar>, key: string, target: seq<Scalar>)
  {
    && (IsTidy(rest) ==> IsTidy(all))
    && (KeyFree(rest, key) ==> KeyFree(all, key))
    && (KeyFreeUntil(rest, target, key) ==> KeyFreeUntil(all, target, key))
  }

  /** The pieces start with a delimiter other than a colon. */
  predicate Delimits(ps: seq<Scalar>)
  {
    |ps| > 0 && ps[0].Bare? && |ps[0].text| > 0 && ps[0].text[0] in DELIMITERS && ps[0].text[0] != ':'
  }

  lemma {:induction false} PassBare(t: string, rest: seq<Scalar>, key: string, target: seq<Scalar>)
    requires |t| > 0 && IsPlain(t)
    ensures Passes([Bare(t)] + rest, rest, key, target)
  {
    assert ([Bare(t)] + rest)[1..] == rest;
    assert ([Bare(t)] + rest)[0] == Bare(t);
  }

  lemma {:induction false} PassScalar(s: Scalar, rest: seq<Scalar>, key: string, target: seq<Scalar>)
    requires IsScalar(s) && Delimits(rest)
    ensures Passes([s] + rest, rest, key, target)
  {
    if s.Bare? {
      PassBare(s.text, rest, key, target);
    } else {
      assert ([s] + rest)[1..] == rest;
      assert ([s] + rest)[0] == s && ([s] + rest)[1] == rest[0];
    }
  }

  lemma {:induction false} PassCommas(items: seq<Scalar>, rest: seq<Scalar>, key: string, target: seq<Scalar>)
    requires (forall i :: 0 <= i < |items| ==> IsScalar(items[i])) && Delimits(rest)
    ensures Passes(Commas(items) + rest, rest, key, target)
  {
    hide IsScalar, IsTidy, KeyFree, KeyFreeUntil, IsPlain;
    if |items| == 0 {
      assert Commas(items) + rest == rest;
    } else if |items| == 1 {
      assert items == [items[0]];
      PassScalar(items[0], rest, key, target);
    } else {
      var tail := Commas(items[1..]) + rest;
      PassCommas(items[1..], rest, key, target);
      CommaIsPlain();
      PassBare(",", tail, key, target);
      PassScalar(items[0], [Bare(",")] + tail, key, target);
      assert Commas(items) + rest == [items[0]] + ([Bare(",")] + tail);
    }
  }

  lemma {:induction false} CommaIsPlain()
    ensures IsPlain(",") && IsPlain("[") && IsPlain("]") && IsPlain(":") && IsPlain("{") && IsPlain("}")
  {
  }

  lemma {:induction false} PassValue(v: Value, rest: seq<Scalar>, key: string, target: seq<Scalar>)
    requires IsValue(v) && Delimits(rest)
    ensures Passes(ValuePieces(v) + rest, rest, key, target)
  {
    hide IsScalar, IsTidy, KeyFree, KeyFreeUntil, IsPlain;
    if v.One? {
      PassScalar(v.s, rest, key, target);
    } else {
      CommaIsPlain();
      var close := [Bare("]")] + rest;
      PassBare("]", rest, key, target);
      PassCommas(v.items, close, key, target);
      PassBare("[", Commas(v.items) + close, key, target);
      assert ValuePieces(v) + rest == [Bare("[")] + (Commas(v.items) + close);
    }
  }

  /** The search passes over a member with another key. */
  lemma {:induction false} PassMember(obj: seq<Member>, key: string, target: seq<Scalar>)
    requires |obj| > 0 && IsKeyBody(obj[0].key) && IsValue(obj[0].value)
    ensures IsTidy(After(obj)) ==> IsTidy(RestPieces(obj))
    ensures obj[0].key != key ==> Passes(RestPieces(obj), After(obj), key, target)
    ensures obj[0].key == key ==> IsKey(RestPieces(obj), key)
  {
    CommaIsPlain();
    assert Delimits(After(obj));
    var m := obj[0];
    var value := ValuePieces(m.value) + After(obj);
    var colon := [Bare(":")] + value;
    hide ValuePieces, After, Delimits, RestPieces;
    PassValue(m.value, After(obj), key, target);
    PassBare(":", value, key, target);
    var all := [Quoted(m.key)] + colon;
    assert all[1..] == colon && all[0] == Quoted(m.key) && all[1] == Bare(":");
  }

  lemma {:induction false} RestIsTidy(obj: seq<Member>, key: string)
    requires forall i :: 0 <= i < |obj| ==> IsKeyBody(obj[i].key) && IsValue(obj[i].value)
    ensures IsTidy(RestPieces(obj))
    ensures (forall i :: 0 <= i < |obj| ==> obj[i].key != key) ==> KeyFree(RestPieces(obj), key)
  {
    CommaIsPlain();
    if |obj| == 0 {
      assert [Bare("}")][1..] == [];
    } else {
      RestIsTidy(obj[1..], key);
      PassBare(",", RestPieces(obj[1..]), key, []);
      assert [Bare("}")][1..] == [];
      PassMember(obj, key, []);
      hide IsPlain, IsValue, RestPieces;
    }
  }

  lemma {:induction false} ObjectIsTidy(obj: seq<Member>, key: string)
    requires IsObject(obj)
    ensures IsTidy(ObjectPieces(obj))
    ensures (forall i :: 0 <= i < |obj| ==> obj[i].key != key) ==> KeyFree(ObjectPieces(obj), key)
  {
    CommaIsPlain();
    RestIsTidy(obj, key);
    PassBare("{", RestPieces(obj), key, []);
  }

  // ---- Keys the scan cannot be fooled about ----

  /** In `obj` the text between two strings spells the key, and the second string begins with a colon. */
  predicate IsAmbiguous(obj: seq<Member>, key: string) { HasColonGap(ObjectPieces(obj), key) }

  lemma {:induction false} GapStarts(ps: seq<Scalar>, key: string)
    requires IsTidy(ps) && (key == "" || key[0] !in DELIMITERS)
    ensures !HasColonGap(ps, key)
  {
    if |ps| > 0 { GapStarts(ps[1..], key); }
  }

  /** A key that does not begin with a delimiter is never ambiguous. */
  lemma {:induction false} OrdinaryKeysAreSafe(obj: seq<Member>, key: string)
    requires IsObject(obj) && (key == "" || key[0] !in DELIMITERS)
    ensures !IsAmbiguous(obj, key)
  {
    ObjectIsTidy(obj, key);
    GapStarts(ObjectPieces(obj), key);
  }

  // ---- Where a key that is there is found ----

  /** The pieces from the key of member `i` on. */
  function FromMember(obj: seq<Member>, i: nat): seq<Scalar>
    requires i < |obj|
  {
    RestPieces(obj[i..])
  }

  /** Before member `i` a gap between two strings spells its key, and the second string begins with a colon. */
  predicate IsGapBefore(obj: seq<Member>, i: nat)
    requires i < |obj|
  {
    GapUntil(ObjectPieces(obj), FromMember(obj, i), obj[i].key)
  }

  /** Where the opening quote of member `i`'s key stands in the printed object. */
  function PlaceOf(obj: seq<Member>, i: nat): int
    requires i < |obj|
  {
    |PrintObject(obj)| - |Flatten(FromMember(obj, i))|
  }

  /** Every other key is another key, so nothing before member `i` is taken for its key. */
  lemma {:induction false} NoKeyBefore(obj: seq<Member>, i: nat)
    requires IsObject(obj) && i < |obj|
    ensures KeyFreeUntil(RestPieces(obj), FromMember(obj, i), obj[i].key) && IsKey(FromMember(obj, i), obj[i].key)
    decreases i
  {
    var key, target := obj[i].key, FromMember(obj, i);
    PassMember(obj, key, target);
    if i == 0 {
      assert obj[0..] == obj;
    } else {
      CommaIsPlain();
      PassBare(",", RestPieces(obj[1..]), key, target);
      hide IsValue, IsPlain, RestPieces, IsTidy, KeyFree, KeyFreeUntil;
      assert obj[1..][i - 1..] == obj[i..];
      NoKeyBefore(obj[1..], i - 1);
    }
  }

  lemma {:induction false} HitIsTarget(all: seq<Scalar>, target: seq<Scalar>, key: string)
    requires KeyFreeUntil(all, target, key) && IsKey(target, key)
    ensures Hit(all, key) == target <==> !GapUntil(all, target, key)
    ensures Hit(all, key) != target ==> KeyFreeUntil(Hit(all, key), target, key) && !IsKey(Hit(all, key), key)
    ensures Hit(all, key) != []
  {
    if all != target && !IsColonGap(all, key) {
      HitIsTarget(all[1..], target, key);
    }
  }

  lemma {:induction false} TargetIsShorter(all: seq<Scalar>, target: seq<Scalar>, key: string)
    requires KeyFreeUntil(all, target, key)
    ensures |Flatten(target)| <= |Flatten(all)|
  {
    if all != target { TargetIsShorter(all[1..], target, key); }
  }

  /** Where the needle stands, measured from the end of the text. */
  lemma {:induction false} FoundFromEnd(ps: seq<Scalar>, key: string)
    requires IsTidy(ps) && Hit(ps, key) != []
    ensures
      var h := Hit(ps, key);
      FoundAt(ps, key) == Some(|Flatten(ps)| - |Flatten(h)| + if IsKey(h, key) then 0 else |h[0].body| + 1)
  {
    if Hit(ps, key) != ps {
      FoundFromEnd(ps[1..], key);
    }
  }

  /**
   A key that is there is found in its own place exactly when no gap before it spells it: what stands behind it
   in the object does not matter, nor do the insides of strings.
   */
  lemma {:induction false} PresentKeyPlace(obj: seq<Member>, i: nat)
    requires IsObject(obj) && i < |obj| && IsPlain(obj[i].key)
    ensures Hit(ObjectPieces(obj), obj[i].key) == FromMember(obj, i) <==> !IsGapBefore(obj, i)
    ensures PlaceOf(obj, i) >= 0
    ensures FindFrom(PrintObject(obj), Needle(obj[i].key), 0) == Some(PlaceOf(obj, i)) <==> !IsGapBefore(obj, i)
  {
    var key, ps, target := obj[i].key, ObjectPieces(obj), FromMember(obj, i);
    ObjectIsTidy(obj, key);
    CommaIsPlain();
    PassBare("{", RestPieces(obj), key, target);
    NoKeyBefore(obj, i);
    HitIsTarget(ps, target, key);
    TargetIsShorter(ps, target, key);
    FoundFromEnd(ps, key);
    FindIsFound(ps, key);
    var h := Hit(ps, key);
    if h != target {
      hide IsTidy, FindFrom, FoundAt, Hit, GapUntil, IsColonGap;
      TargetIsShorter(h[1..], target, key);
    }
  }

  lemma {:induction false} GapUntilIsGap(all: seq<Scalar>, target: seq<Scalar>, key: string)
    requires GapUntil(all, target, key)
    ensures HasColonGap(all, key)
  {
    if !IsColonGap(all, key) { GapUntilIsGap(all[1..], target, key); }
  }

  /** A key that is never ambiguous has no such gap before it. */
  lemma {:induction false} UnambiguousHasNoGap(obj: seq<Member>, i: nat)
    requires i < |obj| && !IsAmbiguous(obj, obj[i].key)
    ensures !IsGapBefore(obj, i)
  {
    if IsGapBefore(obj, i) { GapUntilIsGap(ObjectPieces(obj), FromMember(obj, i), obj[i].key); }
  }

  /** A key with a scalar value and no such gap before it: the lookup answers exactly what is printed for it. */
  lemma {:induction false} PresentKeyIsFound(obj: seq<Member>, i: nat)
    requires IsObject(obj) && i < |obj| && IsPlain(obj[i].key) && obj[i].value.One? && !IsGapBefore(obj, i)
    ensures RawOf(PrintObject(obj), obj[i].key) == Some(ScalarText(obj[i].value.s))
  {
    var key := obj[i].key;
    ObjectIsTidy(obj, key);
    PresentKeyPlace(obj, i);
    NoKeyBefore(obj, i);
    hide HasColonGap, KeyFree, KeyFreeUntil, GapUntil, ReadValue, IsTidy;
    RawIsBehind(ObjectPieces(obj), key);
    var at := obj[i..];
    var value := [at[0].value.s] + After(at);
    assert RestPieces(at)[1..] == [Bare(":")] + value;
    assert ([Bare(":")] + value)[1..] == value && ([Bare(":")] + value)[0] == Bare(":");
    assert Flatten(RestPieces(at)[1..]) == ":" + Flatten(value);
    ScalarIsRead(at[0].value.s, After(at));
  }

  lemma {:induction false} NoHitWithoutGap(ps: seq<Scalar>, key: string)
    requires KeyFree(ps, key)
    ensures Hit(ps, key) != [] <==> HasColonGap(ps, key)
    ensures Hit(ps, key) != [] ==> !IsKey(Hit(ps, key), key) && IsColonGap(Hit(ps, key), key)
  {
    if |ps| > 0 { NoHitWithoutGap(ps[1..], key); }
  }

  /** An unambiguous key that is not there: the lookup answers nothing. */
  lemma {:induction false} AbsentKeyIsNotFound(obj: seq<Member>, key: string)
    requires IsObject(obj) && IsPlain(key) && !IsAmbiguous(obj, key)
    requires forall i :: 0 <= i < |obj| ==> obj[i].key != key
    ensures RawOf(PrintObject(obj), key) == None
  {
    ObjectIsTidy(obj, key);
    NoHitWithoutGap(ObjectPieces(obj), key);
    RawIsBehind(ObjectPieces(obj), key);
  }

  /** An integer printed under such a key is read as that integer. */
  lemma {:induction false} PresentIntIsFound(obj: seq<Member>, i: nat, n: int)
    requires IsObject(obj) && i < |obj| && IsPlain(obj[i].key) && obj[i].value == One(Bare(Itoa(n)))
    requires !IsGapBefore(obj, i)
    ensures RawOf(PrintObject(obj), obj[i].key).Some?
    ensures IntOf(RawOf(PrintObject(obj), obj[i].key).value) == Some(n)
  {
    PresentKeyIsFound(obj, i);
    IntReadsBack(n, "");
    assert Itoa(n) + "" == Itoa(n);
  }

  // ---- Exactly when an absent key is found all the same ----

  predicate IsBlank(s: string) { forall i :: 0 <= i < |s| ==> s[i] == ' ' || s[i] == '\t' }

  /** The string the scan takes for a key and value: it has more to offer than its colon, or another string follows. */
  predicate IsMisread(ps: seq<Scalar>, key: string)
  {
    IsColonGap(ps, key) &&
    var at := AtString(ps[1..]);
    !(IsBlank(at[0].body[1..]) && AtString(at[1..]) == [])
  }

  predicate IsFooled(ps: seq<Scalar>, key: string) { |ps| > 0 && (IsMisread(ps, key) || IsFooled(ps[1..], key)) }

  lemma {:induction false} SkipsBlanks(x: string, more: string)
    requires IsBody(x)
    ensures IsBlank(x) ==> SkipBlanks(x + "\"" + more) == "\"" + more
    ensures !IsBlank(x) ==>
      var rest := SkipBlanks(x + "\"" + more);
      |rest| > 0 && rest[0] != '"'
    decreases |x|
  {
    var s := x + "\"" + more;
    if |x| > 0 && (x[0] == ' ' || x[0] == '\t') {
      assert s[1..] == x[1..] + "\"" + more;
      SkipsBlanks(x[1..], more);
      assert IsBlank(x[1..]) ==> IsBlank(x) by {
        assert forall i :: 1 <= i < |x| ==> x[i] == x[1..][i - 1];
      }
      assert IsBlank(x) ==> IsBlank(x[1..]);
    }
  }

  lemma {:induction false} ClosesAtNext(before: string, gap: string, tail: string)
    requires IsPlain(gap) && (tail == "" || tail[0] == '"')
    ensures CloseFrom(before + gap + tail, |before|).Some? <==> tail != ""
    decreases |gap|
  {
    var s := before + gap + tail;
    if |gap| > 0 {
      assert s[|before|] == gap[0] && gap[0] in gap;
      assert (before + gap[..1]) + gap[1..] + tail == s by { assert gap == gap[..1] + gap[1..]; }
      ClosesAtNext(before + gap[..1], gap[1..], tail);
    } else if tail != "" {
      assert s[|before|] == tail[0];
    }
  }

  /** What the scan makes of a string whose colon it took for that of a key. */
  lemma {:induction false} ReadsIntoString(at: seq<Scalar>)
    requires IsTidy(at) && |at| > 0 && BeginsWithColon(at[0])
    ensures |Flatten(at)| > 1
    ensures ReadValue(Flatten(at)[2..]).Some? <==> !(IsBlank(at[0].body[1..]) && AtString(at[1..]) == [])
  {
    var c, more := at[0].body, Flatten(at[1..]);
    var x := c[1..];
    assert Flatten(at) == "\"" + c + "\"" + more;
    assert Flatten(at)[2..] == x + "\"" + more;
    SkipsBlanks(x, more);
    if IsBlank(x) {
      var gap, tail := Gap(at[1..]), Flatten(AtString(at[1..]));
      AtStringIsString(at[1..]);
      FlattenedString(AtString(at[1..]));
      hide IsTidy, Flatten, Gap, AtString, SkipBlanks, CloseFrom, IsBody;
      assert "\"" + more == "\"" + gap + tail;
      ClosesAtNext("\"", gap, tail);
    }
  }

  lemma {:induction false} FooledFromHit(ps: seq<Scalar>, key: string)
    requires KeyFree(ps, key)
    ensures IsFooled(ps, key) <==> IsFooled(Hit(ps, key), key)
  {
    if |ps| > 0 { FooledFromHit(ps[1..], key); }
  }

  lemma {:induction false} OneStringFoolsNobody(ps: seq<Scalar>, key: string)
    requires |AtString(ps)| > 0 ==> AtString(AtString(ps)[1..]) == []
    ensures !IsFooled(ps, key)
  {
    if |ps| > 0 { OneStringFoolsNobody(ps[1..], key); }
  }

  lemma {:induction false} HitIsTidy(ps: seq<Scalar>, key: string)
    requires IsTidy(ps)
    ensures IsTidy(Hit(ps, key))
  {
    if |ps| > 0 { HitIsTidy(ps[1..], key); }
  }

  /** An absent key is found all the same exactly when some string after a gap that spells it is misread. */
  lemma {:induction false} AbsentKeyIsFoundExactly(obj: seq<Member>, key: string)
    requires IsObject(obj) && IsPlain(key) && forall i :: 0 <= i < |obj| ==> obj[i].key != key
    ensures RawOf(PrintObject(obj), key).Some? <==> IsFooled(ObjectPieces(obj), key)
  {
    var ps := ObjectPieces(obj);
    var h := Hit(ps, key);
    ObjectIsTidy(obj, key);
    NoHitWithoutGap(ps, key);
    HitIsTidy(ps, key);
    FooledFromHit(ps, key);
    hide IsObject, ObjectPieces, Hit, IsKey, KeyFree, HasColonGap, ReadValue, IsPlain, Flatten;
    RawIsBehind(ps, key);
    if h != [] {
      var at := AtString(h[1..]);
      AtStringIsString(h[1..]);
      assert IsTidy(h[1..]);
      hide IsTidy, AtString;
      ReadsIntoString(at);
      if !IsMisread(h, key) {
        AtStringAgain(h[1..]);
        OneStringFoolsNobody(h[1..], key);
      }
    }
  }

  lemma {:induction false} AtStringAgain(ps: seq<Scalar>)
    ensures AtString(AtString(ps)) == AtString(ps)
  {
    if |ps| > 0 && ps[0].Bare? { AtStringAgain(ps[1..]); }
  }

  /** It can happen: after {"a":"x",":y":1} has been searched for the key ",", which it does not have. */
  lemma {:induction false} AbsentKeyCanBeFound() returns (obj: seq<Member>)
    ensures IsObject(obj) && (forall i :: 0 <= i < |obj| ==> obj[i].key != ",")
    ensures RawOf(PrintObject(obj), ",").Some?
  {
    var a, y := Member("a", One(Quoted("x"))), Member(":y", One(Bare("1")));
    obj := [a, y];
    assert IsBody("x") by { assert "x"[1..] == ""; }
    assert obj[1..] == [y];
    var gap := [Quoted("x")] + After(obj);
    var at := RestPieces([y]);
    assert at[0] == Quoted(":y");
    assert gap[1..] == [Bare(",")] + at;
    OneGap(",", at);
    hide IsObject, ObjectPieces, RestPieces, After, Gap, AtString, Flatten, IsBody;
    assert at[0].body[1..] == "y";
    assert IsMisread(gap, ",") by { assert !IsBlank("y") by { assert "y"[0] == 'y'; } }
    FooledBehind([Bare(":")], gap, ",");
    FooledBehind([Quoted("a")], [Bare(":")] + gap, ",");
    FooledObject(obj, gap);
    CommaIsPlain();
    AbsentKeyIsFoundExactly(obj, ",");
  }

  lemma {:induction false} OneGap(t: string, at: seq<Scalar>)
    requires |at| > 0 && at[0].Quoted?
    ensures Gap([Bare(t)] + at) == t && AtString([Bare(t)] + at) == at
  {
    assert ([Bare(t)] + at)[1..] == at;
  }

  lemma {:induction false} FooledObject(obj: seq<Member>, gap: seq<Scalar>)
    requires |obj| > 0 && obj[0].value.One? && gap == [obj[0].value.s] + After(obj)
    requires IsFooled([Quoted(obj[0].key)] + ([Bare(":")] + gap), ",")
    ensures IsFooled(ObjectPieces(obj), ",")
  {
    FooledBehind([Bare("{")], RestPieces(obj), ",");
  }

  lemma {:induction false} FooledBehind(front: seq<Scalar>, ps: seq<Scalar>, key: string)
    requires |front| == 1 && IsFooled(ps, key)
    ensures IsFooled(front + ps, key)
  {
    assert (front + ps)[1..] == ps;
  }

  /**
   With the key there as well: in {"a":"x",":y":2,",":1} the lookup of "," stops at the gap before the second key,
   reads on inside that key, and does not answer 1.
   */
  lemma {:induction false} PresentKeyCanBeMisread() returns (obj: seq<Member>)
    ensures IsObject(obj) && |obj| == 3 && obj[2] == Member(",", One(Bare("1"))) && IsGapBefore(obj, 2)
    ensures RawOf(PrintObject(obj), ",") != Some("1")
  {
    var a, y, c := Member("a", One(Quoted("x"))), Member(":y", One(Bare("2"))), Member(",", One(Bare("1")));
    obj := [a, y, c];
    SampleIsObject();
    hide IsObject, IsBody, ReadValue;
    assert obj[1..] == [y, c];
    var gap := [Quoted("x")] + After(obj);
    var at := RestPieces([y, c]);
    assert at[0] == Quoted(":y");
    assert gap[1..] == [Bare(",")] + at;
    OneGap(",", at);
    GapIsHit(obj, gap, at);
    ObjectIsTidy(obj, ",");
    CommaIsPlain();
    assert at[1..] == [Bare(":")] + (ValuePieces(y.value) + After([y, c]));
    var ps, more := ObjectPieces(obj), Flatten(at[1..]);
    assert Flatten(at) == "\":y\"" + more && Flatten(at)[2..] == "y\"" + more;
    hide ObjectPieces, After, Gap, AtString, Flatten, Hit;
    RawIsBehind(ps, ",");
    ReadsFromLetter("y\"" + more);
    PresentKeyPlace(obj, 2);
    assert FromMember(obj, 2)[0] == Quoted(",");
  }

  lemma {:induction false} SampleIsObject()
    ensures
      IsObject([Member("a", One(Quoted("x"))), Member(":y", One(Bare("2"))), Member(",", One(Bare("1")))])
  {
    assert "x"[1..] == "" && "a"[1..] == "" && ","[1..] == "" && ":y"[1..] == "y" && "y"[1..] == "";
    assert IsBody("x") && IsBody("a") && IsBody(",") && IsBody(":y");
  }

  lemma {:induction false} GapIsHit(obj: seq<Member>, gap: seq<Scalar>, at: seq<Scalar>)
    requires |obj| > 0 && obj[0].key == "a" && obj[0].value.One? && gap == [obj[0].value.s] + After(obj)
    requires gap[0].Quoted? && gap[0] != Quoted(",") && gap[1..] == [Bare(",")] + at
    requires |at| > 0 && BeginsWithColon(at[0])
    ensures Hit(ObjectPieces(obj), ",") == gap && !IsKey(gap, ",")
  {
    OneGap(",", at);
    OneGap(":", gap);
    HitBehind(Bare(":"), gap, ",");
    HitBehind(Quoted("a"), [Bare(":")] + gap, ",");
    HitBehind(Bare("{"), RestPieces(obj), ",");
  }

  lemma {:induction false} HitBehind(p: Scalar, ps: seq<Scalar>, key: string)
    requires p.Quoted? ==> p != Quoted(key) && Gap(ps) != key
    ensures Hit([p] + ps, key) == Hit(ps, key)
  {
    assert ([p] + ps)[1..] == ps;
  }

  lemma {:induction false} ReadsFromLetter(s: string)
    requires |s| > 0 && s[0] == 'y'
    ensures ReadValue(s).Some? && |ReadValue(s).value| > 0 && ReadValue(s).value[0] == 'y'
  {
    assert SkipBlanks(s) == s;
    assert EndFrom(s, 0) == EndFrom(s, 1) >= 1;
  }
}

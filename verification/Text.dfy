/** Strings as the repository's Go code sees them once decoded: white space, trimming,
    and the lexicographic order behind `sort.Strings`. */
module Text {
  import opened Common


  /** `unicode.IsSpace`. */
  predicate IsSpace(c: char) {
    || '\t' <= c <= '\r' || c == ' ' || c == '\U{85}' || c == '\U{A0}' || c == '\U{1680}'
    || '\U{2000}' <= c <= '\U{200A}' || c == '\U{2028}' || c == '\U{2029}' || c == '\U{202F}'
    || c == '\U{205F}' || c == '\U{3000}'
  }

  /** `unicode.IsControl`. */
  predicate IsControl(c: char) {
    c < ' ' || '\U{7F}' <= c <= '\U{9F}'
  }

  function TrimLeft(s: string): (r: string)
    ensures r == "" || !IsSpace(r[0])
    ensures |r| <= |s| && r == s[|s| - |r|..]
    ensures forall i | 0 <= i < |s| - |r| :: IsSpace(s[i])
  {
    if s != "" && IsSpace(s[0]) then TrimLeft(s[1..]) else s
  }

  function TrimRight(s: string): (r: string)
    ensures r == "" || !IsSpace(r[|r| - 1])
    ensures |r| <= |s| && r == s[..|r|]
    ensures forall i | |r| <= i < |s| :: IsSpace(s[i])
  {
    if s != "" && IsSpace(s[|s| - 1]) then TrimRight(s[..|s| - 1]) else s
  }

  /** `strings.TrimSpace`. */
  function Trim(s: string): (r: string)
    ensures Trimmed(r)
    ensures Trimmed(s) ==> r == s
  {
    TrimRight(TrimLeft(s))
  }

  lemma TrimLeadingSpace(c: char, rest: string)
    requires IsSpace(c) && rest != "" && Trimmed(rest)
    ensures Trim([c] + rest) == rest
  {
  }

  predicate Trimmed(s: string) {
    s == "" || (!IsSpace(s[0]) && !IsSpace(s[|s| - 1]))
  }

  predicate Word(w: string) {
    w != "" && forall i | 0 <= i < |w| :: !IsSpace(w[i])
  }

  /** `strings.Fields`, with the word read so far. */
  function Fields(s: string, word: string := ""): seq<string>
    decreases |s|
  {
    if s == "" then (if word == "" then [] else [word])
    else if IsSpace(s[0]) then (if word == "" then [] else [word]) + Fields(s[1..], "")
    else Fields(s[1..], word + [s[0]])
  }

  /** The first word of a line is read up to the next space. */
  lemma {:induction false} FirstField(word: string, w: string, rest: string)
    requires forall i | 0 <= i < |w| :: !IsSpace(w[i])
    requires word + w != "" && (rest == "" || IsSpace(rest[0]))
    ensures Fields(w + rest, word) == [word + w] + (if rest == "" then [] else Fields(rest[1..]))
    decreases |w|
  {
    if w == "" {
      assert w + rest == rest && word + w == word;
    } else {
      assert (w + rest)[1..] == w[1..] + rest;
      assert word + [w[0]] + w[1..] == word + w;
      FirstField(word + [w[0]], w[1..], rest);
    }
  }

  predicate AllSpace(s: string) {
    forall i | 0 <= i < |s| :: IsSpace(s[i])
  }

  /** After white space the text has this word, which ends at a space or with the text. */
  predicate WordAt(s: string, w: string, i: nat, j: nat) {
    i <= j <= |s| && AllSpace(s[..i]) && Word(w) && s[i..j] == w && (j < |s| ==> IsSpace(s[j]))
  }

  /** The text is these words, with white space between them and perhaps around them. */
  ghost predicate Spells(s: string, words: seq<string>)
    decreases |words|
  {
    if words == [] then AllSpace(s)
    else exists i: nat, j: nat :: WordAt(s, words[0], i, j) && Spells(s[j..], words[1..])
  }

  lemma {:induction false} FieldsAfterSpace(space: string, s: string)
    requires AllSpace(space)
    ensures Fields(space + s) == Fields(s)
  {
    if space == "" {
      assert space + s == s;
    } else {
      assert (space + s)[1..] == space[1..] + s;
      FieldsAfterSpace(space[1..], s);
    }
  }

  lemma {:induction false} FieldsBeforeSpace(s: string, space: string, word: string)
    requires AllSpace(space)
    ensures Fields(s + space, word) == Fields(s, word)
    decreases |s|
  {
    if s == "" {
      assert s + space == space;
      if space != "" {
        assert space[1..] + "" == space[1..];
        FieldsAfterSpace(space[1..], "");
      }
    } else {
      assert (s + space)[1..] == s[1..] + space;
      FieldsBeforeSpace(s[1..], space, if IsSpace(s[0]) then "" else word + [s[0]]);
    }
  }

  lemma FirstWord(space: string, w: string, rest: string)
    requires AllSpace(space) && Word(w) && (rest != "" ==> IsSpace(rest[0]))
    ensures Fields(space + (w + rest)) == [w] + Fields(rest)
  {
    FieldsAfterSpace(space, w + rest);
    FirstField("", w, rest);
    assert "" + w == w;
  }

  lemma WordPart(s: string, w: string, i: nat, j: nat)
    requires WordAt(s, w, i, j)
    ensures s == s[..i] + (w + s[j..])
  {
  }

  lemma OneMoreField(s: string, w: string, i: nat, j: nat)
    requires WordAt(s, w, i, j)
    ensures Fields(s) == [w] + Fields(s[j..])
  {
    WordPart(s, w, i, j);
    FirstWord(s[..i], w, s[j..]);
  }

  lemma {:induction false} SpelledFields(s: string, words: seq<string>)
    requires Spells(s, words)
    ensures Fields(s) == words
    decreases |words|
  {
    if words == [] {
      assert s + "" == s;
      FieldsAfterSpace(s, "");
    } else {
      var i: nat, j: nat :| WordAt(s, words[0], i, j) && Spells(s[j..], words[1..]);
      SpelledFields(s[j..], words[1..]);
      OneMoreField(s, words[0], i, j);
      assert words == [words[0]] + words[1..];
    }
  }

  /** Some words spell every text: the first word ends at the first space after the first character that is none. */
  lemma {:induction false} SomeSpelling(s: string) returns (words: seq<string>)
    ensures Spells(s, words)
    decreases |s|
  {
    var i := 0;
    while i < |s| && IsSpace(s[i])
      invariant 0 <= i <= |s| && AllSpace(s[..i])
    {
      i := i + 1;
    }
    if i == |s| {
      assert s[..i] == s;
      words := [];
    } else {
      var j := i + 1;
      while j < |s| && !IsSpace(s[j])
        invariant i < j <= |s| && forall k | i <= k < j :: !IsSpace(s[k])
      {
        j := j + 1;
      }
      var rest := SomeSpelling(s[j..]);
      words := [s[i..j]] + rest;
      assert words[1..] == rest && WordAt(s, words[0], i, j);
    }
  }

  /** The fields of a text are exactly the words that spell it. */
  lemma FieldsAreTheWords(s: string, words: seq<string>)
    ensures Fields(s) == words <==> Spells(s, words)
  {
    var spelling := SomeSpelling(s);
    SpelledFields(s, spelling);
    if Spells(s, words) {
      SpelledFields(s, words);
    }
  }

  lemma {:induction false} SpelledAreWords(s: string, words: seq<string>)
    requires Spells(s, words)
    ensures forall w | w in words :: Word(w)
    decreases |words|
  {
    if words != [] {
      var i: nat, j: nat :| WordAt(s, words[0], i, j) && Spells(s[j..], words[1..]);
      SpelledAreWords(s[j..], words[1..]);
      assert words == [words[0]] + words[1..];
    }
  }

  lemma {:induction false} FieldsOfTrimLeft(s: string)
    ensures Fields(TrimLeft(s)) == Fields(s)
  {
    if s != "" && IsSpace(s[0]) {
      FieldsOfTrimLeft(s[1..]);
    }
  }

  lemma FieldsOfTrimRight(s: string)
    ensures Fields(TrimRight(s)) == Fields(s)
  {
    var kept := TrimRight(s);
    var space := s[|kept|..];
    assert s == kept + space;
    FieldsBeforeSpace(kept, space, "");
  }

  lemma FieldsOfTrimmed(s: string)
    ensures Fields(Trim(s)) == Fields(s)
  {
    FieldsOfTrimLeft(s);
    FieldsOfTrimRight(TrimLeft(s));
  }

  /** `strings.Split(s, sep)` for a one-character separator. */
  function Split(s: string, sep: char): (parts: seq<string>)
    ensures parts != [] && forall p | p in parts :: sep !in p
  {
    if s == "" then [""]
    else
      var rest := Split(s[1..], sep);
      if s[0] == sep then [""] + rest else [[s[0]] + rest[0]] + rest[1..]
  }

  /** `strings.Join(parts, sep)`. */
  function Join(parts: seq<string>, sep: char): string {
    if parts == [] then ""
    else if |parts| == 1 then parts[0]
    else parts[0] + [sep] + Join(parts[1..], sep)
  }

  lemma {:induction false} SplitWord(p: string, sep: char, rest: string)
    requires sep !in p
    ensures Split(p, sep) == [p]
    ensures Split(p + [sep] + rest, sep) == [p] + Split(rest, sep)
  {
    var all := p + [sep] + rest;
    if p == "" {
      assert all[1..] == rest;
    } else {
      assert all[1..] == p[1..] + [sep] + rest;
      assert p[0] in p && forall c | c in p[1..] :: c in p;
      SplitWord(p[1..], sep, rest);
      assert p == [p[0]] + p[1..];
    }
  }

  /** Splitting at one separator first. */
  lemma {:induction false} SplitConcat(a: string, sep: char, b: string)
    ensures Split(a + [sep] + b, sep) == Split(a, sep) + Split(b, sep)
  {
    var all := a + [sep] + b;
    if a == "" {
      assert all[1..] == b;
    } else {
      assert all[1..] == a[1..] + [sep] + b;
      SplitConcat(a[1..], sep, b);
    }
  }

  lemma {:induction false} SplitOfJoin(parts: seq<string>, sep: char)
    requires parts != [] && forall p | p in parts :: sep !in p
    ensures Split(Join(parts, sep), sep) == parts
  {
    assert parts[0] in parts;
    if |parts| == 1 {
      SplitWord(parts[0], sep, "");
    } else {
      SplitOfJoin(parts[1..], sep);
      SplitWord(parts[0], sep, Join(parts[1..], sep));
    }
  }

  lemma {:induction false} JoinOfSplit(s: string, sep: char)
    ensures Join(Split(s, sep), sep) == s
  {
    if s != "" {
      JoinOfSplit(s[1..], sep);
      var rest := Split(s[1..], sep);
      if s[0] != sep && |rest| > 1 {
        assert ([s[0]] + rest[0]) + [sep] + Join(rest[1..], sep) == [s[0]] + (rest[0] + [sep] + Join(rest[1..], sep));
      }
    }
  }

  lemma {:induction false} JoinConcat(a: seq<string>, b: seq<string>, sep: char)
    requires a != [] && b != []
    ensures Join(a + b, sep) == Join(a, sep) + [sep] + Join(b, sep)
  {
    if |a| == 1 {
      assert (a + b)[1..] == b;
    } else {
      assert (a + b)[1..] == a[1..] + b;
      JoinConcat(a[1..], b, sep);
    }
  }

  /** Lexicographic order on strings, the order of Go's `<`. */
  predicate Less(a: string, b: string) {
    b != "" && (a == "" || a[0] < b[0] || (a[0] == b[0] && Less(a[1..], b[1..])))
  }

  lemma {:induction false} LessTotal(a: string, b: string)
    ensures Less(a, b) || a == b || Less(b, a)
  {
    if a != "" && b != "" && a[0] == b[0] {
      LessTotal(a[1..], b[1..]);
      assert a == [a[0]] + a[1..] && b == [b[0]] + b[1..];
    }
  }

  lemma {:induction false} LessTransitive(a: string, b: string, c: string)
    requires Less(a, b) && Less(b, c)
    ensures Less(a, c)
  {
    if a != "" && a[0] == b[0] == c[0] {
      LessTransitive(a[1..], b[1..], c[1..]);
    }
  }

  lemma {:induction false} LessIrreflexive(a: string)
    ensures !Less(a, a)
  {
    if a != "" {
      LessIrreflexive(a[1..]);
    }
  }

  /** Strictly ascending, hence without repetition. */
  ghost predicate Ascending(ss: seq<string>) {
    forall i, j | 0 <= i < j < |ss| :: Less(ss[i], ss[j])
  }

  /** Places a new string in an ascending list. */
  function InsertAscending(x: string, ss: seq<string>): (r: seq<string>)
    requires Ascending(ss) && x !in ss
    ensures Ascending(r) && |r| == |ss| + 1
    ensures forall y :: y in r <==> y == x || y in ss
  {
    if ss == [] then [x]
    else if Less(x, ss[0]) then
      assert forall i | 0 <= i < |ss| :: Less(x, ss[i]) by { InFront(x, ss); }
      [x] + ss
    else
      LessTotal(x, ss[0]);
      var rest := InsertAscending(x, ss[1..]);
      assert ss == [ss[0]] + ss[1..];
      assert forall i | 0 <= i < |rest| :: Less(ss[0], rest[i]) by {
        forall i | 0 <= i < |rest| ensures Less(ss[0], rest[i]) {
          assert rest[i] in rest;
        }
      }
      [ss[0]] + rest
  }

  lemma InFront(x: string, ss: seq<string>)
    requires Ascending(ss) && ss != [] && Less(x, ss[0])
    ensures forall i | 0 <= i < |ss| :: Less(x, ss[i])
  {
    forall i | 0 <= i < |ss| ensures Less(x, ss[i]) {
      if i > 0 { LessTransitive(x, ss[0], ss[i]); }
    }
  }

  /** `sort.Strings` on a list without repetitions. */
  method SortStrings(ss: seq<string>) returns (r: seq<string>)
    requires Distinct(ss)
    ensures Ascending(r) && |r| == |ss|
    ensures forall y :: y in r <==> y in ss
  {
    r := [];
    for i := 0 to |ss|
      invariant Ascending(r) && |r| == i
      invariant forall y :: y in r <==> y in ss[..i]
    {
      assert ss[..i + 1] == ss[..i] + [ss[i]];
      r := InsertAscending(ss[i], r);
    }
    assert ss[..|ss|] == ss;
  }

  ghost function Elements(ss: seq<string>): set<string> {
    set s | s in ss
  }

  /** A list without repetitions has as many elements as places. */
  lemma {:induction false} DistinctSize(ss: seq<string>)
    requires Distinct(ss)
    ensures |Elements(ss)| == |ss|
  {
    if ss != [] {
      var init, last := ss[..|ss| - 1], ss[|ss| - 1];
      DistinctSize(init);
      assert ss == init + [last];
      assert Elements(ss) == Elements(init) + {last};
    }
  }

  lemma SubsetOfSameSize(a: set<string>, b: set<string>)
    requires a <= b && |a| >= |b|
    ensures a == b
  {
    assert b == a + (b - a);
    assert |b - a| == 0;
  }
}

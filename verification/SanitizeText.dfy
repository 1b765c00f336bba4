/** `sanitizeText` of `internal/model/node.go`: its allocation-free fast path returns exactly what the
    builder, Fields and Join would, for every string including malformed UTF-8, and the whole function
    is idempotent. */
module SanitizeText {
  import opened Text

  /** A Go string as `range` walks it: characters, and bytes that are not UTF-8. */
  datatype Sym = Rune(c: char) | BadByte(b: bv8)

  type GoString = seq<Sym>

  const REPLACEMENT := '\U{FFFD}'

  /** The character `range` yields. */
  function Decoded(s: Sym): char {
    if s.Rune? then s.c else REPLACEMENT
  }

  function Encode(s: string): GoString {
    seq(|s|, i requires 0 <= i < |s| => Rune(s[i]))
  }

  predicate SpaceSym(s: Sym) { s.Rune? && IsSpace(s.c) }

  function TrimSymsLeft(s: GoString): GoString {
    if s != [] && SpaceSym(s[0]) then TrimSymsLeft(s[1..]) else s
  }

  function TrimSymsRight(s: GoString): GoString {
    if s != [] && SpaceSym(s[|s| - 1]) then TrimSymsRight(s[..|s| - 1]) else s
  }

  /** `strings.TrimSpace`. */
  function TrimSyms(s: GoString): GoString {
    TrimSymsRight(TrimSymsLeft(s))
  }

  predicate TrimmedSyms(s: GoString) {
    s == [] || (!SpaceSym(s[0]) && !SpaceSym(s[|s| - 1]))
  }

  lemma {:induction false} TrimRightEnds(s: GoString)
    ensures var r := TrimSymsRight(s);
            r <= s && (r == [] || !SpaceSym(r[|r| - 1])) && (s == [] || !SpaceSym(s[|s| - 1]) ==> r == s)
  {
    if s != [] && SpaceSym(s[|s| - 1]) { TrimRightEnds(s[..|s| - 1]); }
  }

  lemma {:induction false} TrimLeftEnds(s: GoString)
    ensures var r := TrimSymsLeft(s);
            (r == [] || !SpaceSym(r[0])) && (s == [] || !SpaceSym(s[0]) ==> r == s)
  {
    if s != [] && SpaceSym(s[0]) { TrimLeftEnds(s[1..]); }
  }

  lemma TrimSymsTrims(s: GoString)
    ensures TrimmedSyms(TrimSyms(s)) && (TrimmedSyms(s) ==> TrimSyms(s) == s)
  {
    TrimLeftEnds(s);
    TrimRightEnds(TrimSymsLeft(s));
  }

  /** What the builder loop writes. */
  function Built(s: GoString): string {
    if s == [] then ""
    else
      var r := Decoded(s[|s| - 1]);
      Built(s[..|s| - 1]) +
      (if r == '\n' || r == '\r' || r == '\t' then " " else if IsControl(r) then "" else [r])
  }

  /** `strings.Join(words, " ")`. */
  function JoinSpaced(words: seq<string>): string {
    if words == [] then "" else if |words| == 1 then words[0] else words[0] + " " + JoinSpaced(words[1..])
  }

  /** The slow path, taken for every string. */
  function Sanitize(value: GoString): GoString {
    Encode(JoinSpaced(Fields(Built(TrimSyms(value)))))
  }

  /** Single spaces only, and none at the ends. */
  predicate Spaced(s: string) {
    && Trimmed(s)
    && (forall i | 0 <= i < |s| && IsSpace(s[i]) :: s[i] == ' ')
    && (forall i | 0 < i < |s| && s[i - 1] == ' ' :: s[i] != ' ')
  }

  predicate NoControl(s: string) {
    forall i | 0 <= i < |s| :: !IsControl(s[i])
  }

  lemma {:induction false} FieldsAreWords(s: string, word: string)
    requires word == "" || Word(word)
    ensures forall w | w in Fields(s, word) :: Word(w)
    ensures NoControl(s) && NoControl(word) ==> forall w | w in Fields(s, word) :: NoControl(w)
    ensures Fields(s, word) == [] ==> word == "" && forall i | 0 <= i < |s| :: IsSpace(s[i])
    decreases |s|
  {
    if s != "" {
      if IsSpace(s[0]) { FieldsAreWords(s[1..], ""); } else { FieldsAreWords(s[1..], word + [s[0]]); }
    }
  }

  lemma {:induction false} JoinOfWords(words: seq<string>)
    requires forall w | w in words :: Word(w)
    ensures Spaced(JoinSpaced(words)) && (words != [] ==> JoinSpaced(words) != "")
    ensures (forall w | w in words :: NoControl(w)) ==> NoControl(JoinSpaced(words))
  {
    if |words| == 1 {
      assert words[0] in words;
    } else if |words| > 1 {
      assert words[0] in words;
      JoinOfWords(words[1..]);
      var rest := JoinSpaced(words[1..]);
      var all := words[0] + " " + rest;
      assert !IsSpace(all[0]) && all[|all| - 1] == rest[|rest| - 1];
      var n := |words[0]|;
      assert forall i | n < i < |all| :: all[i] == rest[i - n - 1];
    }
  }

  /** After a space inside a spaced string comes another word. */
  lemma SpacedTail(word: string, s: string)
    requires Spaced(word + s) && s != "" && IsSpace(s[0])
    ensures word != "" && s[0] == ' ' && s[1..] != "" && Spaced(s[1..])
    ensures word + s == word + " " + s[1..]
  {
    var all, rest := word + s, s[1..];
    assert all[|word|] == s[0];
    assert |all| > |word| + 1;
    assert all[|word| + 1] == rest[0] && all[|all| - 1] == rest[|rest| - 1];
    assert forall i | 0 <= i < |rest| :: rest[i] == all[|word| + 1 + i];
  }

  /** Splitting and joining a string with single inner spaces gives it back. */
  lemma {:induction false} SplitJoin(s: string, word: string)
    requires word == "" || Word(word)
    requires Spaced(word + s)
    ensures JoinSpaced(Fields(s, word)) == word + s
    decreases |s|
  {
    if s == "" {
      assert word + s == word;
    } else if IsSpace(s[0]) {
      SpacedTail(word, s);
      assert "" + s[1..] == s[1..];
      SplitJoin(s[1..], "");
      FieldsAreWords(s[1..], "");
      assert Fields(s, word) == [word] + Fields(s[1..], "");
    } else {
      assert word + [s[0]] + s[1..] == word + s;
      SplitJoin(s[1..], word + [s[0]]);
    }
  }

  lemma {:induction false} BuiltNoControl(s: GoString)
    ensures NoControl(Built(s))
  {
    if s != [] { BuiltNoControl(s[..|s| - 1]); }
  }

  /** On decoded text without control characters the builder only copies. */
  lemma {:induction false} BuiltCopies(s: string)
    requires NoControl(s)
    ensures Built(Encode(s)) == s
  {
    if s != "" {
      assert Encode(s)[..|s| - 1] == Encode(s[..|s| - 1]);
      BuiltCopies(s[..|s| - 1]);
    }
  }

  /** On its normal forms, `sanitizeText` is the identity ... */
  lemma NormalFormIsFixed(s: string)
    requires Spaced(s) && NoControl(s)
    ensures Sanitize(Encode(s)) == Encode(s)
  {
    TrimSymsTrims(Encode(s));
    BuiltCopies(s);
    assert "" + s == s;
    SplitJoin(s, "");
  }

  /** ... and every result is one: no control characters, single inner spaces, none at the ends. */
  lemma ResultIsNormal(value: GoString) returns (s: string)
    ensures Sanitize(value) == Encode(s) && Spaced(s) && NoControl(s)
  {
    var b := Built(TrimSyms(value));
    BuiltNoControl(TrimSyms(value));
    FieldsAreWords(b, "");
    JoinOfWords(Fields(b));
    s := JoinSpaced(Fields(b));
  }

  lemma SanitizeIsIdempotent(value: GoString)
    ensures Sanitize(Sanitize(value)) == Sanitize(value)
  {
    var s := ResultIsNormal(value);
    NormalFormIsFixed(s);
  }

  /** What the first loop accepts. */
  ghost predicate Clean(s: GoString) {
    && (forall i | 0 <= i < |s| :: var r := Decoded(s[i]); r != REPLACEMENT && !IsControl(r) && (IsSpace(r) ==> r == ' '))
    && (forall i | 0 < i < |s| && Decoded(s[i - 1]) == ' ' :: Decoded(s[i]) != ' ')
  }

  function DecodeAll(s: GoString): string {
    seq(|s|, i requires 0 <= i < |s| => Decoded(s[i]))
  }

  lemma CleanIsNormal(s: GoString)
    requires Clean(s) && TrimmedSyms(s)
    ensures Encode(DecodeAll(s)) == s && Spaced(DecodeAll(s)) && NoControl(DecodeAll(s))
  {
  }

  /** The function with its two paths. */
  method Run(value: GoString) returns (r: GoString)
    ensures r == Sanitize(value)
  {
    var v := TrimSyms(value);
    TrimSymsTrims(value);
    TrimSymsTrims(v);
    if v == [] {
      return [];
    }
    var clean, previousSpace := true, false;
    for i := 0 to |v|
      invariant clean ==> Clean(v[..i]) && (previousSpace <==> i > 0 && Decoded(v[i - 1]) == ' ')
    {
      var c := Decoded(v[i]);
      if c == REPLACEMENT || IsControl(c) || (IsSpace(c) && (c != ' ' || previousSpace)) {
        clean := false;
        break;
      }
      previousSpace := c == ' ';
    }
    if clean {
      assert v[..|v|] == v;
      CleanIsNormal(v);
      NormalFormIsFixed(DecodeAll(v));
      return v;
    }
    var b := "";
    for i := 0 to |v|
      invariant b == Built(v[..i])
    {
      assert v[..i + 1][..i] == v[..i];
      var c := Decoded(v[i]);
      if c == '\n' || c == '\r' || c == '\t' {
        b := b + " ";
        continue;
      }
      if IsControl(c) {
        continue;
      }
      b := b + [c];
    }
    assert v[..|v|] == v;
    r := Encode(JoinSpaced(Fields(b)));
  }
}

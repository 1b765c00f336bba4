/** Path names inside a backup archive, as `validateArchiveName` of `internal/backup/archive.go` checks
    them with `path.Clean`. */
module ArchiveNames {
  import opened Text

  /** `path.Clean` on the components of a relative path, with the components kept so far. */
  function CleanParts(parts: seq<string>, kept: seq<string>): seq<string>
    decreases |parts|
  {
    if parts == [] then kept
    else
      var p := parts[0];
      if p == "" || p == "." then CleanParts(parts[1..], kept)
      else if p == ".." && kept != [] && kept[|kept| - 1] != ".." then CleanParts(parts[1..], kept[..|kept| - 1])
      else CleanParts(parts[1..], kept + [p])
  }

  /** `path.Clean` of a path that is neither empty nor absolute. */
  function Clean(name: string): string {
    var kept := CleanParts(Split(name, '/'), []);
    if kept == [] then "." else Join(kept, '/')
  }

  predicate HasPrefix(s: string, prefix: string) {
    prefix <= s
  }

  /** No backslash, not absolute, already clean, and not reaching upwards. */
  predicate ValidName(name: string) {
    && name != "" && '\\' !in name && !HasPrefix(name, "/") && Clean(name) == name && name != "."
    && !HasPrefix(name, "../") && !Contains(name, "/../")
  }

  predicate Contains(s: string, part: string) {
    part <= s || (s != "" && Contains(s[1..], part))
  }

  predicate Normal(p: string) {
    p != "" && p != "." && p != ".."
  }

  lemma {:induction false} CleanKeepsAtMost(parts: seq<string>, kept: seq<string>)
    ensures |CleanParts(parts, kept)| <= |kept| + |parts|
    ensures |CleanParts(parts, kept)| == |kept| + |parts| ==>
              && CleanParts(parts, kept) == kept + parts
              && forall i | 0 <= i < |parts| :: parts[i] != "" && parts[i] != "."
    decreases |parts|
  {
    if parts != [] {
      var p := parts[0];
      if p == "" || p == "." {
        CleanKeepsAtMost(parts[1..], kept);
      } else if p == ".." && kept != [] && kept[|kept| - 1] != ".." {
        CleanKeepsAtMost(parts[1..], kept[..|kept| - 1]);
      } else {
        CleanKeepsAtMost(parts[1..], kept + [p]);
        assert kept + [p] + parts[1..] == kept + parts;
      }
    }
  }

  /** ".." survives cleaning only at the front. */
  lemma {:induction false} UpsComeFirst(parts: seq<string>, kept: seq<string>, i: nat)
    requires |CleanParts(parts, kept)| == |kept| + |parts|
    requires kept != [] && kept[|kept| - 1] != ".." && i < |parts|
    ensures parts[i] != ".."
    decreases |parts|
  {
    CleanKeepsAtMost(parts, kept);
    var p := parts[0];
    CleanKeepsAtMost(parts[1..], kept[..|kept| - 1]);
    CleanKeepsAtMost(parts[1..], kept + [p]);
    if i > 0 {
      UpsComeFirst(parts[1..], kept + [p], i - 1);
    }
  }

  lemma {:induction false} CleanedNoSlash(parts: seq<string>, kept: seq<string>)
    requires forall p | p in parts :: '/' !in p
    requires forall p | p in kept :: '/' !in p
    ensures forall p | p in CleanParts(parts, kept) :: '/' !in p
    decreases |parts|
  {
    if parts != [] {
      var p := parts[0];
      assert p in parts && forall q | q in parts[1..] :: q in parts;
      if p == "" || p == "." {
        CleanedNoSlash(parts[1..], kept);
      } else if p == ".." && kept != [] && kept[|kept| - 1] != ".." {
        assert forall q | q in kept[..|kept| - 1] :: q in kept;
        CleanedNoSlash(parts[1..], kept[..|kept| - 1]);
      } else {
        CleanedNoSlash(parts[1..], kept + [p]);
      }
    }
  }

  /** A name that is its own clean form has the components cleaning keeps. */
  lemma CleanNameParts(name: string)
    requires name != "" && name != "." && Clean(name) == name
    ensures CleanParts(Split(name, '/'), []) == Split(name, '/')
  {
    var parts := Split(name, '/');
    CleanedNoSlash(parts, []);
    SplitOfJoin(CleanParts(parts, []), '/');
  }

  /** An archive entry under data/ names a place strictly inside the data directory: every component is
      a proper name. */
  lemma ValidNamesStayInside(name: string)
    requires ValidName(name) && HasPrefix(name, "data/")
    ensures forall p | p in Split(name, '/') :: Normal(p)
    ensures Split(name, '/')[0] == "data" && |Split(name, '/')| >= 2
  {
    var parts := Split(name, '/');
    CleanNameParts(name);
    CleanKeepsAtMost(parts, []);
    assert name == "data" + ['/'] + name[5..];
    SplitWord("data", '/', name[5..]);
    assert parts == ["data"] + Split(name[5..], '/');
    assert CleanParts(parts, []) == CleanParts(parts[1..], [] + [parts[0]]);
    forall i | 0 <= i < |parts| ensures Normal(parts[i]) {
      if i > 0 {
        UpsComeFirst(parts[1..], [] + [parts[0]], i - 1);
      }
    }
  }

  // ---- Exactly which names are valid ----

  lemma {:induction false} NormalIsClean(parts: seq<string>, kept: seq<string>)
    requires forall p | p in parts :: Normal(p)
    ensures CleanParts(parts, kept) == kept + parts
    decreases |parts|
  {
    if parts != [] {
      assert parts[0] in parts && forall p | p in parts[1..] :: p in parts;
      NormalIsClean(parts[1..], kept + [parts[0]]);
      assert kept + [parts[0]] + parts[1..] == kept + parts;
    } else {
      assert kept + parts == kept;
    }
  }

  lemma {:induction false} ContainedAt(s: string, part: string) returns (i: nat)
    requires Contains(s, part)
    ensures i + |part| <= |s| && s == s[..i] + part + s[i + |part|..]
  {
    if part <= s {
      i := 0;
    } else {
      var n := ContainedAt(s[1..], part);
      i := n + 1;
      assert s[..i] == [s[0]] + s[1..][..n] && s[i + |part|..] == s[1..][n + |part|..];
      assert s == [s[0]] + s[1..];
    }
  }

  lemma UpInside(name: string)
    requires Contains(name, "/../")
    ensures ".." in Split(name, '/')
  {
    var i := ContainedAt(name, "/../");
    var a, b := name[..i], name[i + 4..];
    assert name == a + ['/'] + (".." + ['/'] + b);
    SplitConcat(a, '/', ".." + ['/'] + b);
    SplitWord("..", '/', b);
  }

  lemma UpFirst(name: string)
    requires HasPrefix(name, "../")
    ensures ".." in Split(name, '/')
  {
    assert name == ".." + ['/'] + name[3..];
    SplitWord("..", '/', name[3..]);
  }

  lemma SlashFirst(name: string)
    requires name == "" || HasPrefix(name, "/")
    ensures "" in Split(name, '/')
  {
  }

  lemma DotAlone()
    ensures "." in Split(".", '/')
  {
    SplitWord(".", '/', "");
  }

  ghost predicate AllNormal(parts: seq<string>) {
    forall p | p in parts :: p != "" && p != "." && p != ".."
  }

  lemma NormalIsValid(name: string)
    requires '\\' !in name && AllNormal(Split(name, '/'))
    ensures ValidName(name)
  {
    if Contains(name, "/../") { UpInside(name); }
    if HasPrefix(name, "../") { UpFirst(name); }
    if name == "" || HasPrefix(name, "/") { SlashFirst(name); }
    DotAlone();
    NormalIsClean(Split(name, '/'), []);
    assert [] + Split(name, '/') == Split(name, '/');
    JoinOfSplit(name, '/');
  }

  lemma UpThenMore(name: string)
    requires Split(name, '/')[0] == ".."
    ensures name == ".." || HasPrefix(name, "../")
  {
    var parts := Split(name, '/');
    JoinOfSplit(name, '/');
    if |parts| > 1 {
      assert name == ".." + ['/'] + Join(parts[1..], '/');
    }
  }

  lemma ValidIsNormal(name: string)
    requires ValidName(name) && name != ".."
    ensures AllNormal(Split(name, '/'))
  {
    var parts := Split(name, '/');
    CleanNameParts(name);
    CleanKeepsAtMost(parts, []);
    if parts[0] == ".." { UpThenMore(name); }
    assert CleanParts(parts, []) == CleanParts(parts[1..], [] + [parts[0]]);
    forall i | 0 <= i < |parts| ensures Normal(parts[i]) {
      if i > 0 {
        UpsComeFirst(parts[1..], [] + [parts[0]], i - 1);
      }
    }
  }

  lemma {:induction false} NotContained(s: string, part: string)
    requires |s| < |part|
    ensures !Contains(s, part)
  {
    if s != "" {
      NotContained(s[1..], part);
    }
  }

  lemma UpAloneIsValid()
    ensures ValidName("..")
  {
    SplitWord("..", '/', "");
    assert CleanParts([".."], []) == CleanParts([], [] + [".."]);
    NotContained("..", "/../");
  }

  /** A name is accepted exactly if it has no backslash and every component is a proper name, or if it is ".." alone,
      which the program does not refuse as a name. */
  lemma ValidNameIff(name: string)
    ensures ValidName(name) <==> name == ".." || ('\\' !in name && AllNormal(Split(name, '/')))
  {
    UpAloneIsValid();
    if ValidName(name) && name != ".." { ValidIsNormal(name); }
    if '\\' !in name && AllNormal(Split(name, '/')) { NormalIsValid(name); }
  }
}

/** A configuration as a list of lines of which only three things matter: whether a line opens the main
    section, opens any section, or sets the option in question. */
module ConfigSections {
  import opened Common

  datatype Lines<!L> = Lines(isMain: L -> bool, isHeader: L -> bool, isOption: L -> bool)

  /** The first main header, if any; and the first header, or the end. */
  function MainStart<L>(k: Lines<L>, lines: seq<L>): (n: nat)
    ensures n <= |lines|
  {
    if lines == [] || k.isMain(lines[0]) then 0 else 1 + MainStart(k, lines[1..])
  }

  function HeaderFrom<L>(k: Lines<L>, lines: seq<L>): (n: nat)
    ensures n <= |lines|
  {
    if lines == [] || k.isHeader(lines[0]) then 0 else 1 + HeaderFrom(k, lines[1..])
  }

  lemma {:induction false} MainStartFinds<L>(k: Lines<L>, lines: seq<L>)
    ensures var n := MainStart(k, lines);
            (n < |lines| ==> k.isMain(lines[n])) && forall i | 0 <= i < n :: !k.isMain(lines[i])
  {
    if lines != [] && !k.isMain(lines[0]) { MainStartFinds(k, lines[1..]); }
  }

  lemma {:induction false} HeaderFromFinds<L>(k: Lines<L>, lines: seq<L>)
    ensures var n := HeaderFrom(k, lines);
            (n < |lines| ==> k.isHeader(lines[n])) && forall i | 0 <= i < n :: !k.isHeader(lines[i])
  {
    if lines != [] && !k.isHeader(lines[0]) { HeaderFromFinds(k, lines[1..]); }
  }

  function WithoutOption<L>(k: Lines<L>, lines: seq<L>): seq<L> {
    if lines == [] then []
    else WithoutOption(k, lines[..|lines| - 1]) + if k.isOption(lines[|lines| - 1]) then [] else [lines[|lines| - 1]]
  }

  /** A configuration cut at its main section: what precedes it, its header, its body, what follows. */
  datatype Sections<L> = Sections(before: seq<L>, header: L, body: seq<L>, after: seq<L>)

  function Whole<L>(s: Sections<L>): seq<L> {
    s.before + ([s.header] + (s.body + s.after))
  }

  function Cut<L>(k: Lines<L>, lines: seq<L>): Option<Sections<L>> {
    var start := MainStart(k, lines);
    if start == |lines| then None
    else
      var rest := lines[start + 1..];
      var end := HeaderFrom(k, rest);
      Some(Sections(lines[..start], lines[start], rest[..end], rest[end..]))
  }

  /** Cutting loses nothing, and fails only without a main header. */
  lemma CutCuts<L>(k: Lines<L>, lines: seq<L>)
    ensures Cut(k, lines).None? ==> forall i | 0 <= i < |lines| :: !k.isMain(lines[i])
    ensures Cut(k, lines).Some? ==> Whole(Cut(k, lines).value) == lines && IsCut(k, Cut(k, lines).value)
  {
    MainStartFinds(k, lines);
    if MainStart(k, lines) < |lines| {
      HeaderFromFinds(k, lines[MainStart(k, lines) + 1..]);
    }
  }

  ghost predicate IsCut<L>(k: Lines<L>, s: Sections<L>) {
    && k.isMain(s.header)
    && (forall i | 0 <= i < |s.before| :: !k.isMain(s.before[i]))
    && (forall i | 0 <= i < |s.body| :: !k.isHeader(s.body[i]))
    && (s.after != [] ==> k.isHeader(s.after[0]))
  }

  lemma {:induction false} MainStartOf<L>(k: Lines<L>, before: seq<L>, rest: seq<L>)
    requires forall i | 0 <= i < |before| :: !k.isMain(before[i])
    requires rest != [] && k.isMain(rest[0])
    ensures MainStart(k, before + rest) == |before|
  {
    if before == [] {
      assert before + rest == rest;
    } else {
      assert (before + rest)[1..] == before[1..] + rest;
      MainStartOf(k, before[1..], rest);
    }
  }

  lemma {:induction false} HeaderFromOf<L>(k: Lines<L>, body: seq<L>, rest: seq<L>)
    requires forall i | 0 <= i < |body| :: !k.isHeader(body[i])
    requires rest != [] ==> k.isHeader(rest[0])
    ensures HeaderFrom(k, body + rest) == |body|
  {
    if body == [] {
      assert body + rest == rest;
    } else {
      assert (body + rest)[1..] == body[1..] + rest;
      HeaderFromOf(k, body[1..], rest);
    }
  }

  /** The cut is unique: a configuration assembled from sections is cut into them. */
  lemma CutOfWhole<L>(k: Lines<L>, s: Sections<L>)
    requires IsCut(k, s)
    ensures Cut(k, Whole(s)) == Some(s)
  {
    var rest := s.body + s.after;
    var lines := Whole(s);
    MainStartOf(k, s.before, [s.header] + rest);
    HeaderFromOf(k, s.body, s.after);
    assert lines[|s.before|] == s.header;
    assert lines[|s.before| + 1..] == rest;
    assert lines[..|s.before|] == s.before;
    assert rest[..|s.body|] == s.body && rest[|s.body|..] == s.after;
  }

  /** The main section with its option forced to be the given line. */
  function Forced<L>(k: Lines<L>, s: Sections<L>, line: L): Sections<L> {
    s.(body := [line] + WithoutOption(k, s.body))
  }

  function Preserve<L>(k: Lines<L>, lines: seq<L>, line: L): Option<seq<L>> {
    match Cut(k, lines)
    case None => None
    case Some(s) => Some(Whole(Forced(k, s, line)))
  }

  lemma {:induction false} WithoutOptionClean<L>(k: Lines<L>, lines: seq<L>)
    ensures forall l | l in WithoutOption(k, lines) :: l in lines && !k.isOption(l)
    ensures (forall l | l in lines :: !k.isOption(l)) ==> WithoutOption(k, lines) == lines
  {
    if lines != [] {
      var init, last := lines[..|lines| - 1], lines[|lines| - 1];
      WithoutOptionClean(k, init);
      assert lines == init + [last];
      assert last in lines && forall l | l in init :: l in lines;
    }
  }

  lemma {:induction false} WithoutOptionConcat<L>(k: Lines<L>, a: seq<L>, b: seq<L>)
    ensures WithoutOption(k, a + b) == WithoutOption(k, a) + WithoutOption(k, b)
  {
    if b == [] {
      assert a + b == a;
    } else {
      assert (a + b)[..|a + b| - 1] == a + b[..|b| - 1];
      WithoutOptionConcat(k, a, b[..|b| - 1]);
    }
  }

  /** Lines that set the option go, and of the others none is lost or repeated. */
  lemma {:induction false} KeptCount<L>(k: Lines<L>, lines: seq<L>, l: L)
    ensures multiset(WithoutOption(k, lines))[l] == if k.isOption(l) then 0 else multiset(lines)[l]
  {
    if lines != [] {
      KeptCount(k, lines[..|lines| - 1], l);
      assert lines == lines[..|lines| - 1] + [lines[|lines| - 1]];
    }
  }

  lemma ForcedIsCut<L>(k: Lines<L>, s: Sections<L>, line: L)
    requires IsCut(k, s) && k.isOption(line) && !k.isHeader(line)
    ensures IsCut(k, Forced(k, s, line))
    ensures WithoutOption(k, Forced(k, s, line).body) == WithoutOption(k, s.body)
  {
    WithoutOptionClean(k, s.body);
    var kept := WithoutOption(k, s.body);
    forall i | 0 <= i < |kept| ensures !k.isHeader(kept[i]) {
      assert kept[i] in kept && kept[i] in s.body;
    }
    WithoutOptionConcat(k, [line], kept);
    WithoutOptionClean(k, kept);
    assert [line][..0] == [];
    assert WithoutOption(k, [line]) == [];
  }

  /** The result is the original with exactly one such option in its main section, the forced one, right
      after the header; every other line is kept in place, and forcing again changes nothing. */
  lemma PreserveForces<L>(k: Lines<L>, lines: seq<L>, line: L)
    requires k.isOption(line) && !k.isHeader(line) && Cut(k, lines).Some?
    ensures var s := Cut(k, lines).value;
            var out := Preserve(k, lines, line).value;
            && Cut(k, out) == Some(Sections(s.before, s.header, [line] + WithoutOption(k, s.body), s.after))
            && (forall l | l in WithoutOption(k, s.body) :: l in s.body && !k.isOption(l))
            && (forall l | l in out :: l == line || l in lines)
            && Preserve(k, out, line) == Some(out)
  {
    var s := Cut(k, lines).value;
    CutCuts(k, lines);
    ForcedIsCut(k, s, line);
    CutOfWhole(k, Forced(k, s, line));
    WithoutOptionClean(k, s.body);
  }

  /** Where the main section starts and ends, in terms of the lines around it. */
  lemma SectionAt<L>(k: Lines<L>, lines: seq<L>, start: nat, end: nat)
    requires start < end <= |lines| && k.isMain(lines[start])
    requires forall i | 0 <= i < start :: !k.isMain(lines[i])
    requires forall i | start < i < end :: !k.isHeader(lines[i])
    requires end < |lines| ==> k.isHeader(lines[end])
    ensures start == MainStart(k, lines) && end == start + 1 + HeaderFrom(k, lines[start + 1..])
  {
    assert lines == lines[..start] + lines[start..];
    MainStartOf(k, lines[..start], lines[start..]);
    assert lines[start + 1..] == lines[start + 1..end] + lines[end..];
    HeaderFromOf(k, lines[start + 1..end], lines[end..]);
  }

  lemma NoMain<L>(k: Lines<L>, lines: seq<L>)
    requires forall i | 0 <= i < |lines| :: !k.isMain(lines[i])
    ensures MainStart(k, lines) == |lines|
  {
    MainStartFinds(k, lines);
  }

  /** The first loop: the main header, and the header after it. */
  method FindSection<L>(k: Lines<L>, lines: seq<L>) returns (sectionStart: int, sectionEnd: nat)
    requires forall l | l in lines && k.isMain(l) :: k.isHeader(l)
    ensures if MainStart(k, lines) == |lines| then sectionStart == -1
            else sectionStart == MainStart(k, lines) < sectionEnd <= |lines|
                 && sectionEnd == sectionStart + 1 + HeaderFrom(k, lines[sectionStart + 1..])
  {
    sectionStart, sectionEnd := -1, |lines|;
    for index := 0 to |lines|
      invariant sectionEnd == |lines| && -1 <= sectionStart < index
      invariant sectionStart < 0 ==> forall i | 0 <= i < index :: !k.isMain(lines[i])
      invariant sectionStart >= 0 ==> k.isMain(lines[sectionStart]) && forall i | 0 <= i < sectionStart :: !k.isMain(lines[i])
      invariant sectionStart >= 0 ==> forall i | sectionStart < i < index :: !k.isHeader(lines[i])
    {
      if !k.isHeader(lines[index]) {
        assert lines[index] in lines;
        continue;
      }
      if sectionStart >= 0 {
        sectionEnd := index;
        break;
      }
      if k.isMain(lines[index]) {
        sectionStart := index;
      }
    }
    if sectionStart >= 0 {
      SectionAt(k, lines, sectionStart, sectionEnd);
    } else {
      NoMain(k, lines);
    }
  }

  /** The second loop: the body without the option. */
  method DropOption<L>(k: Lines<L>, body: seq<L>) returns (kept: seq<L>)
    ensures kept == WithoutOption(k, body)
  {
    kept := [];
    for index := 0 to |body|
      invariant kept == WithoutOption(k, body[..index])
    {
      assert body[..index + 1][..index] == body[..index];
      if k.isOption(body[index]) {
        continue;
      }
      kept := kept + [body[index]];
    }
    assert body[..|body|] == body;
  }

  /** `preserveDataDir` on lines. */
  method PreserveLines<L>(k: Lines<L>, lines: seq<L>, line: L) returns (r: Option<seq<L>>)
    requires forall l | l in lines && k.isMain(l) :: k.isHeader(l)
    ensures r == Preserve(k, lines, line)
  {
    var sectionStart, sectionEnd := FindSection(k, lines);
    if sectionStart < 0 {
      return None;
    }
    var kept := DropOption(k, lines[sectionStart + 1..sectionEnd]);
    CutAt(k, lines, sectionStart, sectionEnd);
    var out := lines[..sectionStart] + ([lines[sectionStart]] + (([line] + kept) + lines[sectionEnd..]));
    r := Some(out);
  }

  lemma CutAt<L>(k: Lines<L>, lines: seq<L>, sectionStart: nat, sectionEnd: nat)
    requires sectionStart == MainStart(k, lines) < sectionEnd <= |lines|
    requires sectionEnd == sectionStart + 1 + HeaderFrom(k, lines[sectionStart + 1..])
    ensures Cut(k, lines) == Some(Sections(lines[..sectionStart], lines[sectionStart], lines[sectionStart + 1..sectionEnd], lines[sectionEnd..]))
  {
    var rest := lines[sectionStart + 1..];
    assert rest[..sectionEnd - sectionStart - 1] == lines[sectionStart + 1..sectionEnd];
  }

}

/** `preserveDataDir` of `internal/backup/archive.go`: a restored service configuration keeps every line
    of the archived one except that its main section names the current data directory. */
module UciConfig {
  import opened Common
  import opened Text
  import opened ConfigSections

  predicate Quote(c: char) { c == '"' || c == '\'' }

  function TrimQuotesLeft(s: string): string {
    if s != "" && Quote(s[0]) then TrimQuotesLeft(s[1..]) else s
  }

  function TrimQuotesRight(s: string): string {
    if s != "" && Quote(s[|s| - 1]) then TrimQuotesRight(s[..|s| - 1]) else s
  }

  /** `trimUCIWord`. */
  function Unquoted(word: string): string {
    TrimQuotesRight(TrimQuotesLeft(Trim(word)))
  }

  function LineFields(line: string): seq<string> {
    Fields(Trim(line))
  }

  predicate IsHeader(line: string) {
    LineFields(line) != [] && LineFields(line)[0] == "config"
  }

  predicate IsMainHeader(line: string) {
    var f := LineFields(line);
    IsHeader(line) && |f| >= 3 && Unquoted(f[1]) == "subconv-next" && Unquoted(f[2]) == "main"
  }

  /** `isUCIOption(line, "data_dir")`. */
  predicate IsDataDir(line: string) {
    var f := LineFields(line);
    |f| >= 3 && f[0] == "option" && Unquoted(f[1]) == "data_dir"
  }

  function DataDirLine(dir: string): string {
    "\toption data_dir '" + dir + "'"
  }

  const UCI: Lines<string> := Lines(IsMainHeader, IsHeader, IsDataDir)

  /** Characters a validated data directory is made of. */
  predicate SafeDir(dir: string) {
    dir != "" && forall i | 0 <= i < |dir| ::
      'A' <= dir[i] <= 'Z' || 'a' <= dir[i] <= 'z' || '0' <= dir[i] <= '9' || dir[i] in "._/-"
  }

  /** The directory of the shipped configuration is such a one. */
  lemma ShippedDirIsSafe()
    ensures SafeDir("/etc/subconv-next/data")
  {
  }

  lemma ThreeFields(a: string, b: string, c: string)
    requires Word(a) && Word(b) && Word(c)
    ensures Fields(a + (" " + (b + (" " + c)))) == [a, b, c]
  {
    assert c + "" == "" + c == c && "" + b == b && "" + a == a;
    FirstField("", c, "");
    assert (" " + c)[1..] == c;
    FirstField("", b, " " + c);
    assert (" " + (b + (" " + c)))[1..] == b + (" " + c);
    FirstField("", a, " " + (b + (" " + c)));
  }

  lemma DataDirTrimmed(dir: string)
    ensures Trim(DataDirLine(dir)) == "option" + (" " + ("data_dir" + (" " + ("'" + dir + "'"))))
  {
    var rest := "option" + (" " + ("data_dir" + (" " + ("'" + dir + "'"))));
    assert DataDirLine(dir) == ['\t'] + rest;
    assert rest[0] == 'o' && rest[|rest| - 1] == '\'';
    TrimLeadingSpace('\t', rest);
  }

  lemma QuotedIsWord(dir: string)
    requires SafeDir(dir)
    ensures Word("'" + dir + "'")
  {
  }

  lemma DataDirOneLine(dir: string)
    requires SafeDir(dir)
    ensures '\n' !in DataDirLine(dir)
  {
    assert forall i | 0 <= i < |dir| :: dir[i] != '\n';
  }

  lemma UnquotedWord(w: string)
    requires Word(w) && !Quote(w[0]) && !Quote(w[|w| - 1])
    ensures Unquoted(w) == w
  {
  }

  lemma DataDirFields(dir: string, option: string, name: string)
    requires SafeDir(dir) && option == "option" && name == "data_dir"
    ensures LineFields(DataDirLine(dir)) == [option, name, "'" + dir + "'"]
  {
    DataDirTrimmed(dir);
    QuotedIsWord(dir);
    ThreeFields(option, name, "'" + dir + "'");
  }

  lemma OptionFields(line: string, name: string)
    requires name == "data_dir" && |LineFields(line)| >= 3 && LineFields(line)[0] == "option" && LineFields(line)[1] == name
    ensures IsDataDir(line) && !IsHeader(line)
  {
    UnquotedWord(name);
    assert "option"[0] != "config"[0];
  }

  /** The forced line is a data_dir option, is no header, and is one line. */
  lemma DataDirLineParses(dir: string)
    requires SafeDir(dir)
    ensures LineFields(DataDirLine(dir)) == ["option", "data_dir", "'" + dir + "'"]
    ensures IsDataDir(DataDirLine(dir)) && !IsHeader(DataDirLine(dir))
  {
    DataDirFields(dir, "option", "data_dir");
    OptionFields(DataDirLine(dir), "data_dir");
  }

  /** `preserveDataDir` on text. */
  function PreserveText(config: string, dir: string): Option<string> {
    match Preserve(UCI, Split(config, '\n'), DataDirLine(dir))
    case None => None
    case Some(lines) => Some(Join(lines, '\n'))
  }

  /** On text: the lines of the result are the forced lines, so the archived configuration with exactly
      one data_dir in its main section, and restoring twice forces the directory once. */
  lemma PreserveTextForces(config: string, dir: string)
    requires SafeDir(dir) && PreserveText(config, dir).Some?
    ensures var lines, out := Split(config, '\n'), Split(PreserveText(config, dir).value, '\n');
            && Cut(UCI, lines).Some?
            && Cut(UCI, out) == Some(Forced(UCI, Cut(UCI, lines).value, DataDirLine(dir)))
    ensures PreserveText(PreserveText(config, dir).value, dir) == PreserveText(config, dir)
  {
    var lines := Split(config, '\n');
    var line := DataDirLine(dir);
    DataDirLineParses(dir);
    DataDirOneLine(dir);
    PreserveForces(UCI, lines, line);
    var out := Preserve(UCI, lines, line).value;
    assert Cut(UCI, lines).value.header in out;
    SplitOfJoin(out, '\n');
  }

  /** Forcing leaves a text as it is, to the character, exactly when its main section begins with the forced line and
      has no other such option. */
  lemma AlreadyForcedIff(config: string, dir: string)
    requires SafeDir(dir) && PreserveText(config, dir).Some?
    ensures var s := Cut(UCI, Split(config, '\n')).value;
            PreserveText(config, dir) == Some(config) <==> s.body == [DataDirLine(dir)] + WithoutOption(UCI, s.body)
  {
    var lines := Split(config, '\n');
    var s := Cut(UCI, lines).value;
    JoinOfSplit(config, '\n');
    PreserveTextForces(config, dir);
    CutCuts(UCI, lines);
  }

  // ---- Lines as text ----

  predicate Mark(c: char) { c == '"' || c == '\'' }

  predicate Marks(s: string) {
    forall i | 0 <= i < |s| :: Mark(s[i])
  }

  /** The word is this one, bare or between quotation marks of either kind. */
  ghost predicate QuotedAs(word: string, core: string) {
    exists i: nat, j: nat :: i <= j <= |word| && Marks(word[..i]) && word[i..j] == core && Marks(word[j..])
  }

  predicate Bare(core: string) {
    core != "" && !Mark(core[0]) && !Mark(core[|core| - 1])
  }

  lemma {:induction false} MarksLeft(marks: string, rest: string)
    requires Marks(marks) && rest != "" && !Mark(rest[0])
    ensures TrimQuotesLeft(marks + rest) == rest
  {
    if marks == "" {
      assert marks + rest == rest;
    } else {
      assert (marks + rest)[1..] == marks[1..] + rest;
      MarksLeft(marks[1..], rest);
    }
  }

  lemma {:induction false} MarksRight(rest: string, marks: string)
    requires Marks(marks) && rest != "" && !Mark(rest[|rest| - 1])
    ensures TrimQuotesRight(rest + marks) == rest
  {
    if marks == "" {
      assert rest + marks == rest;
    } else {
      var all := rest + marks;
      assert all[..|all| - 1] == rest + marks[..|marks| - 1];
      MarksRight(rest, marks[..|marks| - 1]);
    }
  }

  lemma {:induction false} LeftMarks(w: string) returns (i: nat)
    ensures i <= |w| && Marks(w[..i]) && TrimQuotesLeft(w) == w[i..]
  {
    i := 0;
    if w != "" && Quote(w[0]) {
      var n := LeftMarks(w[1..]);
      i := n + 1;
      assert w[..i] == [w[0]] + w[1..][..n];
    }
  }

  lemma {:induction false} RightMarks(w: string) returns (j: nat)
    ensures j <= |w| && Marks(w[j..]) && TrimQuotesRight(w) == w[..j]
  {
    j := |w|;
    if w != "" && Quote(w[|w| - 1]) {
      j := RightMarks(w[..|w| - 1]);
      assert w[j..] == w[..|w| - 1][j..] + [w[|w| - 1]];
    }
  }

  lemma MarksBothSides(left: string, core: string, right: string)
    requires Marks(left) && Marks(right) && Bare(core)
    ensures TrimQuotesRight(TrimQuotesLeft(left + (core + right))) == core
  {
    var rest := core + right;
    assert rest[0] == core[0];
    MarksLeft(left, rest);
    MarksRight(core, right);
  }

  lemma QuotedParts(w: string, core: string) returns (left: string, right: string)
    requires QuotedAs(w, core)
    ensures w == left + (core + right) && Marks(left) && Marks(right)
  {
    var i: nat, j: nat :| i <= j <= |w| && Marks(w[..i]) && w[i..j] == core && Marks(w[j..]);
    left, right := w[..i], w[j..];
  }

  lemma WordUnquotes(w: string)
    requires Word(w)
    ensures Unquoted(w) == TrimQuotesRight(TrimQuotesLeft(w))
  {
    assert Trim(w) == w;
  }

  lemma QuotedUnquotes(w: string, core: string)
    requires Word(w) && Bare(core) && QuotedAs(w, core)
    ensures Unquoted(w) == core
  {
    var left, right := QuotedParts(w, core);
    MarksBothSides(left, core, right);
    WordUnquotes(w);
  }

  lemma UnquotedIsQuoted(w: string)
    requires Word(w)
    ensures QuotedAs(w, Unquoted(w))
  {
    WordUnquotes(w);
    var i := LeftMarks(w);
    var j := RightMarks(w[i..]);
    assert w[i..][..j] == w[i..i + j] && w[i..][j..] == w[i + j..];
  }

  /** Unquoting a word gives a bare one exactly if it is that one between quotation marks. */
  lemma UnquotedIff(w: string, core: string)
    requires Word(w) && Bare(core)
    ensures Unquoted(w) == core <==> QuotedAs(w, core)
  {
    UnquotedIsQuoted(w);
    if QuotedAs(w, core) {
      QuotedUnquotes(w, core);
    }
  }

  /** At least three words: a keyword, a name that may be quoted, and another. */
  ghost predicate Opens(words: seq<string>, keyword: string, name: string) {
    |words| >= 3 && words[0] == keyword && QuotedAs(words[1], name)
  }

  ghost predicate HeaderText(line: string) {
    exists words :: Spells(line, words) && words != [] && words[0] == "config"
  }

  ghost predicate MainText(line: string) {
    exists words :: Spells(line, words) && Opens(words, "config", "subconv-next") && QuotedAs(words[2], "main")
  }

  ghost predicate DataDirText(line: string) {
    exists words :: Spells(line, words) && Opens(words, "option", "data_dir")
  }

  lemma LineWords(line: string)
    ensures forall words :: Spells(line, words) <==> words == LineFields(line)
    ensures forall w | w in LineFields(line) :: Word(w)
  {
    FieldsOfTrimmed(line);
    forall words ensures Spells(line, words) <==> words == LineFields(line) {
      FieldsAreTheWords(line, words);
    }
    SpelledAreWords(line, LineFields(line));
  }

  lemma OpensIff(words: seq<string>, keyword: string, name: string)
    requires Bare(name) && forall w | w in words :: Word(w)
    ensures Opens(words, keyword, name) <==> |words| >= 3 && words[0] == keyword && Unquoted(words[1]) == name
  {
    if |words| >= 3 {
      UnquotedIff(words[1], name);
    }
  }

  lemma NamesAreBare()
    ensures Bare("subconv-next") && Bare("main") && Bare("data_dir")
  {
  }

  lemma MainWords(words: seq<string>, keyword: string, kind: string, name: string)
    requires Bare(kind) && Bare(name) && forall w | w in words :: Word(w)
    ensures Opens(words, keyword, kind) && QuotedAs(words[2], name)
            <==> (|words| >= 3 && words[0] == keyword && Unquoted(words[1]) == kind && Unquoted(words[2]) == name)
  {
    OpensIff(words, keyword, kind);
    if |words| >= 3 {
      UnquotedIff(words[2], name);
    }
  }

  /** There is only one way to spell a line. */
  lemma TextOfWords(line: string, words: seq<string>)
    requires forall other :: Spells(line, other) <==> other == words
    ensures HeaderText(line) <==> words != [] && words[0] == "config"
    ensures MainText(line) <==> Opens(words, "config", "subconv-next") && QuotedAs(words[2], "main")
    ensures DataDirText(line) <==> Opens(words, "option", "data_dir")
  {
    assert Spells(line, words);
  }

  /** The tests of the program are these tests of the text. */
  lemma HeadersAreText(line: string)
    ensures IsHeader(line) <==> HeaderText(line)
    ensures IsMainHeader(line) <==> MainText(line)
  {
    LineWords(line);
    NamesAreBare();
    TextOfWords(line, LineFields(line));
    MainWords(LineFields(line), "config", "subconv-next", "main");
  }

  lemma DataDirsAreText(line: string)
    ensures IsDataDir(line) <==> DataDirText(line)
  {
    LineWords(line);
    NamesAreBare();
    TextOfWords(line, LineFields(line));
    OpensIff(LineFields(line), "option", "data_dir");
  }

  /** A configuration is accepted exactly if some line opens the main section, its words bare or quoted either way. */
  lemma AcceptedIff(config: string, dir: string)
    ensures PreserveText(config, dir).Some? <==> exists line :: line in Split(config, '\n') && MainText(line)
  {
    var lines := Split(config, '\n');
    MainStartFinds(UCI, lines);
    var n := MainStart(UCI, lines);
    if n < |lines| {
      HeadersAreText(lines[n]);
      assert lines[n] in lines;
    }
    forall line | line in lines && MainText(line) ensures n < |lines| {
      HeadersAreText(line);
      var i :| 0 <= i < |lines| && lines[i] == line;
    }
  }

  lemma QuotedFields(keyword: string, name: string, value: string)
    requires Word(keyword) && Word(name) && Word(value)
    ensures Spells(keyword + (" " + (name + (" " + value))), [keyword, name, value])
  {
    ThreeFields(keyword, name, value);
    FieldsAreTheWords(keyword + (" " + (name + (" " + value))), [keyword, name, value]);
  }

  lemma BareIsQuoted(core: string)
    ensures QuotedAs(core, core)
  {
    assert core[..0] == "" && core[0..|core|] == core && core[|core|..] == "";
    assert Marks("");
  }

  lemma SingleQuoted(core: string)
    ensures QuotedAs("'" + core + "'", core)
  {
    var word := "'" + core + "'";
    assert word[..1] == "'" && word[1..|word| - 1] == core && word[|word| - 1..] == "'";
    assert Marks("'");
  }

  /** Any way of quoting the two words makes a header of the main section. */
  lemma QuotedHeader(kind: string, name: string)
    requires Word(kind) && Word(name) && QuotedAs(kind, "subconv-next") && QuotedAs(name, "main")
    ensures MainText("config" + (" " + (kind + (" " + name))))
  {
    QuotedFields("config", kind, name);
    var words := ["config", kind, name];
    assert Opens(words, "config", "subconv-next") && QuotedAs(words[2], "main");
  }

  /** The header of the configuration that the program ships. */
  const SHIPPED := "config subconv-next 'main'"

  lemma ShippedWords(kind: string, main: string)
    requires kind == "subconv-next" && main == "'main'"
    ensures SHIPPED == "config" + (" " + (kind + (" " + main)))
  {
  }

  lemma ShippedIsPlain(kind: string, main: string)
    requires kind == "subconv-next" && main == "'main'"
    ensures Word(kind) && Word(main) && '\n' !in SHIPPED
  {
  }

  lemma QuotedWords(kind: string, main: string)
    requires kind == "subconv-next" && main == "'main'"
    ensures QuotedAs(kind, "subconv-next") && QuotedAs(main, "main")
  {
    BareIsQuoted("subconv-next");
    SingleQuoted("main");
    assert main == "'" + "main" + "'";
  }

  lemma ShippedIsMain(kind: string, main: string)
    requires kind == "subconv-next" && main == "'main'"
    ensures MainText(SHIPPED)
  {
    ShippedWords(kind, main);
    ShippedIsPlain(kind, main);
    QuotedWords(kind, main);
    QuotedHeader(kind, main);
  }

  /** A configuration that begins with it is accepted. */
  lemma ShippedIsAccepted(rest: string, dir: string)
    ensures PreserveText(SHIPPED + ['\n'] + rest, dir).Some?
  {
    ShippedIsPlain("subconv-next", "'main'");
    ShippedIsMain("subconv-next", "'main'");
    SplitWord(SHIPPED, '\n', rest);
    AcceptedIff(SHIPPED + ['\n'] + rest, dir);
    assert SHIPPED in [SHIPPED] + Split(rest, '\n');
  }

  /** And any way of quoting the name makes a data_dir line, indented or not. */
  lemma QuotedOption(space: string, name: string, value: string)
    requires AllSpace(space) && Word(name) && Word(value) && QuotedAs(name, "data_dir")
    ensures IsDataDir(space + ("option" + (" " + (name + (" " + value)))))
  {
    var line := "option" + (" " + (name + (" " + value)));
    ThreeFields("option", name, value);
    FieldsAfterSpace(space, line);
    FieldsAreTheWords(space + line, ["option", name, value]);
    assert Opens(["option", name, value], "option", "data_dir");
    DataDirsAreText(space + line);
  }

  lemma SingleQuotedOption(name: string, value: string)
    requires name == "'" + "data_dir" + "'" && Word(value)
    ensures IsDataDir("\t" + ("option" + (" " + (name + (" " + value)))))
  {
    SingleQuoted("data_dir");
    QuotedOption("\t", name, value);
  }

  // ---- What restoring leaves of the text ----

  /** The main section is the lines after the first header of its kind, up to the next header of any kind; in the
      result it begins with the forced line, and of the others exactly those that set data_dir are gone. */
  lemma RestoredText(config: string, dir: string) returns (before: seq<string>, header: string, body: seq<string>, kept: seq<string>, after: seq<string>)
    requires SafeDir(dir) && exists line :: line in Split(config, '\n') && MainText(line)
    ensures PreserveText(config, dir).Some?
    ensures Split(config, '\n') == before + ([header] + (body + after))
    ensures Split(PreserveText(config, dir).value, '\n') == before + ([header] + (([DataDirLine(dir)] + kept) + after))
    ensures MainText(header) && forall line | line in before :: !MainText(line)
    ensures (forall line | line in body :: !HeaderText(line)) && (after != [] ==> HeaderText(after[0]))
    ensures forall line | line in body && !DataDirText(line) :: multiset(kept)[line] == multiset(body)[line]
    ensures forall line | line in kept :: line in body && !DataDirText(line)
  {
    AcceptedIff(config, dir);
    var lines := Split(config, '\n');
    PreserveTextForces(config, dir);
    CutCuts(UCI, lines);
    var s := Cut(UCI, lines).value;
    before, header, body, kept, after := s.before, s.header, s.body, WithoutOption(UCI, s.body), s.after;
    CutCuts(UCI, Split(PreserveText(config, dir).value, '\n'));
    SectionsAreText(s);
    BodyIsText(s.body);
  }

  lemma SectionsAreText(s: Sections<string>)
    requires IsCut(UCI, s)
    ensures MainText(s.header) && forall line | line in s.before :: !MainText(line)
    ensures (forall line | line in s.body :: !HeaderText(line)) && (s.after != [] ==> HeaderText(s.after[0]))
  {
    HeadersAreText(s.header);
    forall line | line in s.before ensures !MainText(line) {
      HeadersAreText(line);
    }
    forall line | line in s.body ensures !HeaderText(line) {
      HeadersAreText(line);
    }
    if s.after != [] {
      HeadersAreText(s.after[0]);
    }
  }

  lemma BodyIsText(body: seq<string>)
    ensures forall line | line in body && !DataDirText(line) :: multiset(WithoutOption(UCI, body))[line] == multiset(body)[line]
    ensures forall line | line in WithoutOption(UCI, body) :: line in body && !DataDirText(line)
  {
    WithoutOptionClean(UCI, body);
    forall line ensures (line in body && !DataDirText(line)) ==> multiset(WithoutOption(UCI, body))[line] == multiset(body)[line] {
      KeptCount(UCI, body, line);
      DataDirsAreText(line);
    }
    forall line | line in WithoutOption(UCI, body) ensures line in body && !DataDirText(line) {
      DataDirsAreText(line);
    }
  }

  method PreserveDataDir(config: string, dir: string) returns (r: Option<string>)
    ensures r == PreserveText(config, dir)
  {
    var lines := PreserveLines(UCI, Split(config, '\n'), DataDirLine(dir));
    r := if lines.None? then None else Some(Join(lines.value, '\n'));
  }
}

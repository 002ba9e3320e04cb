/** The lines of the XFS projects file and the two patterns that read them back. */
module Projects {
  import opened Common
  import opened Text
  import opened BlockFile

  type uint16 = x: nat | x < 0x1_0000

  datatype Project = Project(id: uint16, directory: string, bhard: string)

  function Line(p: Project): string {
    FormatUint(p.id) + ":" + p.directory + ":" + p.bhard
  }

  /** The text that is appended for a project. */
  lemma ProjectText(p: Project)
    ensures Block(Line(p)) == "\n" + FormatUint(p.id) + ":" + p.directory + ":" + p.bhard + "\n"
  {
  }

  /** Directories are absolute paths on one line, and may contain ':'; a limit is a number. */
  predicate FieldsOk(directory: string, bhard: string) {
    && directory != "" && directory[0] == '/' && '\n' !in directory
    && bhard != "" && ':' !in bhard && '\n' !in bhard
  }

  predicate ProjectsOk(ps: seq<Project>) {
    && (forall i :: 0 <= i < |ps| ==> FieldsOk(ps[i].directory, ps[i].bhard))
    && (forall i, j :: 0 <= i < j < |ps| ==> ps[i].id != ps[j].id)
  }

  function Lines(ps: seq<Project>): (r: seq<string>)
    ensures |r| == |ps| && forall i :: 0 <= i < |ps| ==> r[i] == Line(ps[i])
  {
    seq(|ps|, i requires 0 <= i < |ps| => Line(ps[i]))
  }

  function Ids(ps: seq<Project>): set<uint16> {
    set p | p in ps :: p.id
  }

  /** The text of the file that holds exactly `ps`, in order. */
  function FileOf(ps: seq<Project>): string {
    Render(Lines(ps))
  }

  // ---- the patterns ----

  /** `^([0-9]+):/.+$` on one line; numbers above 65535 do not parse and are dropped. */
  function IdOnLine(line: string): set<uint16> {
    var d := LeadingDigits(line);
    if d > 0 && ":/" <= line[d..] && |line| > d + 2 && Value(line[..d]) < 0x1_0000
    then {Value(line[..d])} else {}
  }

  /** All ids that getExistingIDs finds with that pattern. */
  function IdsIn(text: string): set<uint16>
    decreases |text|
  {
    var k := IndexOf(text, '\n');
    IdOnLine(text[..k]) + if k < |text| then IdsIn(text[k + 1..]) else {}
  }

  /** One match of restoreQuotas: the whole block, and its three fields. */
  datatype Match = Match(block: string, digits: string, directory: string, bhard: string)

  /** The last ':' of `s` that has something before and something after it (the first `.+` is
      greedy). */
  function SplitPoint(s: string, q: nat): (r: Option<nat>)
    requires q <= |s|
    ensures r.Some? ==> 0 < r.value < |s| - 1 && s[r.value] == ':'
  {
    if q == 0 then None
    else if 0 < q - 1 < |s| - 1 && s[q - 1] == ':' then Some(q - 1)
    else SplitPoint(s, q - 1)
  }

  /** `([0-9]+):(.+):(.+)` on one line. */
  function MatchLine(line: string): (m: Option<Match>)
    ensures m.Some? ==> AllDigits(m.value.digits) && m.value.block == Block(line)
  {
    var d := LeadingDigits(line);
    if d == 0 || d == |line| || line[d] != ':' then None
    else
      var rest := line[d + 1..];
      var q := SplitPoint(rest, |rest|);
      if q.None? then None
      else Some(Match(Block(line), line[..d], rest[..q.value], rest[q.value + 1..]))
  }

  /** All matches of `\n^([0-9]+):(.+):(.+)$\n`, from left to right, not overlapping. */
  function MatchesIn(text: string): seq<Match>
    decreases |text|
  {
    if text == "" then []
    else
      var k := IndexOf(text[1..], '\n');
      var m := MatchLine(text[1..][..k]);
      if text[0] == '\n' && 1 + k < |text| && m.Some?
      then [m.value] + MatchesIn(text[k + 2..])
      else MatchesIn(text[1..])
  }

  /** strconv.ParseUint(digits, 10, 16) with its error ignored: out of range gives the maximum. */
  function ParseId(digits: string): uint16
    requires AllDigits(digits)
  {
    if Value(digits) < 0x1_0000 then Value(digits) else 0xFFFF
  }

  // ---- what the patterns match, in any text ----

  predicate IsIdLine(line: string, digits: string, rest: string, id: uint16) {
    line == digits + ":/" + rest && digits != "" && AllDigits(digits) && rest != "" && Value(digits) == id
  }

  /** The first pattern on one line. */
  lemma IdOnLineIff(line: string, id: uint16)
    ensures id in IdOnLine(line) <==> exists digits, rest :: IsIdLine(line, digits, rest, id)
  {
    if id in IdOnLine(line) {
      var d := LeadingDigits(line);
      assert line == line[..d] + ":/" + line[d + 2..];
      assert IsIdLine(line, line[..d], line[d + 2..], id);
    }
    if digits, rest :| IsIdLine(line, digits, rest, id) {
      LeadingDigitsOf(digits, ":/" + rest);
      assert line == digits + (":/" + rest);
      assert line[..|digits|] == digits && line[|digits|..] == ":/" + rest;
    }
  }

  ghost predicate OnSomeLine(lines: seq<string>, id: uint16) {
    exists i :: 0 <= i < |lines| && id in IdOnLine(lines[i])
  }

  /** The scan finds an id exactly if some line of the text has it. */
  lemma {:induction false} IdsInIff(text: string, id: uint16)
    ensures id in IdsIn(text) <==> OnSomeLine(Split(text, '\n'), id)
    decreases |text|
  {
    var k := IndexOf(text, '\n');
    if k == |text| {
      assert text[..k] == text && Split(text, '\n')[0] == text;
    } else {
      var line, rest := text[..k], text[k + 1..];
      IdsInIff(rest, id);
      OneLineMore(line, rest, id);
      CutAtNewline(text, k);
    }
  }

  lemma CutAtNewline(s: string, k: nat)
    requires k < |s| && s[k] == '\n'
    ensures s == s[..k] + "\n" + s[k + 1..]
  {
  }

  lemma OneLineMore(line: string, rest: string, id: uint16)
    requires '\n' !in line && (id in IdsIn(rest) <==> OnSomeLine(Split(rest, '\n'), id))
    ensures id in IdsIn(line + "\n" + rest) <==> OnSomeLine(Split(line + "\n" + rest, '\n'), id)
  {
    IdsInLine(line, rest);
    SplitLine(line, rest);
    FirstOrMore(line, Split(rest, '\n'), id);
  }

  lemma SplitLine(line: string, rest: string)
    requires '\n' !in line
    ensures Split(line + "\n" + rest, '\n') == [line] + Split(rest, '\n')
  {
    SplitAppend(line, '\n', rest);
    assert line + "\n" + rest == line + ['\n'] + rest;
  }

  lemma FirstOrMore(first: string, more: seq<string>, id: uint16)
    ensures OnSomeLine([first] + more, id) <==> id in IdOnLine(first) || OnSomeLine(more, id)
  {
    var lines := [first] + more;
    assert lines[0] == first;
    if i :| 0 <= i < |more| && id in IdOnLine(more[i]) {
      assert lines[i + 1] == more[i];
    }
  }

  lemma {:induction false} SplitPointIff(s: string, n: nat, q: nat)
    requires n <= |s|
    ensures SplitPoint(s, n) == Some(q) <==>
              0 < q < n && q < |s| - 1 && s[q] == ':' && forall j :: q < j < n && j < |s| - 1 ==> s[j] != ':'
  {
    if n > 0 {
      SplitPointIff(s, n - 1, q);
    }
  }

  /** The second pattern on one line: the limit holds no colon, unless at its end. */
  predicate IsMatch(line: string, m: Match) {
    && m.block == "\n" + line + "\n"
    && line == m.digits + ":" + (m.directory + ":" + m.bhard)
    && m.digits != "" && AllDigits(m.digits) && m.directory != "" && m.bhard != ""
    && forall j :: 0 <= j < |m.bhard| - 1 ==> m.bhard[j] != ':'
  }

  lemma MatchLineIff(line: string, m: Match)
    ensures MatchLine(line) == Some(m) <==> IsMatch(line, m)
  {
    if MatchLine(line) == Some(m) {
      FoundIsMatch(line, m);
    }
    if IsMatch(line, m) {
      MatchIsFound(line, m);
    }
  }

  lemma CutAtColon(s: string, q: nat)
    requires q < |s| && s[q] == ':'
    ensures s == s[..q] + ":" + s[q + 1..]
  {
  }

  lemma FoundIsMatch(line: string, m: Match)
    requires MatchLine(line) == Some(m)
    ensures IsMatch(line, m)
  {
    var d := LeadingDigits(line);
    var rest := line[d + 1..];
    var q := SplitPoint(rest, |rest|).value;
    CutAtColon(line, d);
    CutAtColon(rest, q);
    NoColonBehind(rest, q);
    assert m == Match(Block(line), line[..d], rest[..q], rest[q + 1..]);
  }

  lemma NoColonBehind(rest: string, q: nat)
    requires SplitPoint(rest, |rest|) == Some(q)
    ensures var bhard := rest[q + 1..]; bhard != "" && forall j :: 0 <= j < |bhard| - 1 ==> bhard[j] != ':'
  {
    SplitPointIff(rest, |rest|, q);
  }

  lemma MatchIsFound(line: string, m: Match)
    requires IsMatch(line, m)
    ensures MatchLine(line) == Some(m)
  {
    var rest, q := m.directory + ":" + m.bhard, |m.directory|;
    LastColon(m.directory, m.bhard);
    SplitPointIff(rest, |rest|, q);
    DigitsThen(m.digits, rest);
    assert line == m.digits + ":" + rest;
    MatchLineAt(line, |m.digits|, rest, q);
    assert rest[..q] == m.directory && rest[q + 1..] == m.bhard;
  }

  lemma DigitsThen(digits: string, rest: string)
    requires AllDigits(digits)
    ensures var line := digits + ":" + rest;
            LeadingDigits(line) == |digits| && line[..|digits|] == digits && line[|digits|..] == ":" + rest
  {
    assert digits + ":" + rest == digits + (":" + rest);
    LeadingDigitsOf(digits, ":" + rest);
  }

  lemma LastColon(directory: string, bhard: string)
    requires forall j :: 0 <= j < |bhard| - 1 ==> bhard[j] != ':'
    ensures var rest := directory + ":" + bhard;
            rest[|directory|] == ':' && forall j :: |directory| < j < |rest| - 1 ==> rest[j] != ':'
  {
    var rest := directory + ":" + bhard;
    forall j | |directory| < j < |rest| - 1
      ensures rest[j] != ':'
    {
      assert rest[j] == bhard[j - |directory| - 1];
    }
  }

  // ---- printing and parsing agree ----

  lemma DigitsOnLine(n: nat)
    ensures '\n' !in FormatUint(n)
  {
    forall i | 0 <= i < |FormatUint(n)|
      ensures FormatUint(n)[i] != '\n'
    {
      assert IsDigit(FormatUint(n)[i]);
    }
  }

  lemma LineIsOk(p: Project)
    requires FieldsOk(p.directory, p.bhard)
    ensures LineOk(Line(p))
  {
    DigitsOnLine(p.id);
    var a, b := FormatUint(p.id) + ":", p.directory + ":" + p.bhard;
    assert Line(p) == a + b;
    assert '\n' !in a && '\n' !in b;
  }

  lemma LineStartsWithId(p: Project)
    ensures LeadingDigits(Line(p)) == |FormatUint(p.id)| && Line(p)[..|FormatUint(p.id)|] == FormatUint(p.id)
    ensures Line(p)[|FormatUint(p.id)|..] == ":" + (p.directory + ":" + p.bhard)
  {
    var rest := ":" + (p.directory + ":" + p.bhard);
    assert Line(p) == FormatUint(p.id) + rest;
    LeadingDigitsOf(FormatUint(p.id), rest);
  }

  lemma LineDeterminesId(p: Project, q: Project)
    requires FieldsOk(p.directory, p.bhard) && FieldsOk(q.directory, q.bhard)
    requires Line(p) == Line(q)
    ensures p.id == q.id
  {
    LineStartsWithId(p);
    LineStartsWithId(q);
    ValueOfFormat(p.id);
    ValueOfFormat(q.id);
  }

  lemma LinesOk(ps: seq<Project>)
    requires ProjectsOk(ps)
    ensures forall l :: l in Lines(ps) ==> LineOk(l)
    ensures forall i, j :: 0 <= i < j < |ps| ==> Line(ps[i]) != Line(ps[j])
  {
    forall i | 0 <= i < |ps|
      ensures LineOk(Line(ps[i]))
    {
      LineIsOk(ps[i]);
    }
    forall i, j | 0 <= i < j < |ps|
      ensures Line(ps[i]) != Line(ps[j])
    {
      if Line(ps[i]) == Line(ps[j]) {
        LineDeterminesId(ps[i], ps[j]);
      }
    }
  }

  lemma IdOfLine(p: Project)
    requires FieldsOk(p.directory, p.bhard)
    ensures IdOnLine(Line(p)) == {p.id}
  {
    LineStartsWithId(p);
    ValueOfFormat(p.id);
    var d := |FormatUint(p.id)|;
    assert |Line(p)| == d + 1 + |p.directory| + 1 + |p.bhard|;
    assert Line(p)[d..][0] == ':' && Line(p)[d..][1] == p.directory[0];
    assert ":/" <= Line(p)[d..];
  }

  lemma IdsInLine(line: string, rest: string)
    requires '\n' !in line
    ensures IdsIn(line + "\n" + rest) == IdOnLine(line) + IdsIn(rest)
  {
    var text := line + "\n" + rest;
    IndexOfConcat(line, '\n', rest);
    assert text[..|line|] == line && text[|line| + 1..] == rest;
  }

  lemma IdsInBlock(line: string, rest: string)
    requires LineOk(line)
    ensures IdsIn(Block(line) + rest) == IdOnLine(line) + IdsIn(rest)
  {
    IdsInLine(line, rest);
    IdsInLine("", line + "\n" + rest);
    BlockParts(line, rest);
    assert "" + "\n" + (line + "\n" + rest) == "\n" + (line + "\n" + rest);
    assert IdOnLine("") == {};
  }

  lemma IdsCons(p: Project, ps: seq<Project>)
    ensures Ids([p] + ps) == {p.id} + Ids(ps)
  {
    assert forall q :: q in [p] + ps <==> q == p || q in ps;
  }

  lemma FileCons(p: Project, ps: seq<Project>)
    ensures FileOf([p] + ps) == Block(Line(p)) + FileOf(ps)
  {
    LinesCons(p, ps);
    assert ([Line(p)] + Lines(ps))[1..] == Lines(ps);
  }

  lemma {:induction false} IdsOfFile(ps: seq<Project>)
    requires ProjectsOk(ps)
    ensures IdsIn(FileOf(ps)) == Ids(ps)
  {
    if ps == [] {
      assert IdsIn("") == {};
    } else {
      assert ps == [ps[0]] + ps[1..];
      LineIsOk(ps[0]);
      IdOfLine(ps[0]);
      IdsOfFile(ps[1..]);
      FileCons(ps[0], ps[1..]);
      IdsInBlock(Line(ps[0]), FileOf(ps[1..]));
      IdsCons(ps[0], ps[1..]);
    }
  }

  lemma {:induction false} SplitPointFrom(dir: string, bhard: string, q: nat)
    requires dir != "" && bhard != "" && ':' !in bhard
    requires |dir| < q <= |dir| + 1 + |bhard|
    ensures SplitPoint(dir + ":" + bhard, q) == Some(|dir|)
  {
    var s := dir + ":" + bhard;
    if q > |dir| + 1 {
      assert s[q - 1] == bhard[q - 2 - |dir|] && bhard[q - 2 - |dir|] in bhard;
      SplitPointFrom(dir, bhard, q - 1);
    }
  }

  lemma RestSplits(directory: string, bhard: string)
    requires FieldsOk(directory, bhard)
    ensures var rest := directory + ":" + bhard;
            && SplitPoint(rest, |rest|) == Some(|directory|)
            && rest[..|directory|] == directory && rest[|directory| + 1..] == bhard
  {
    SplitPointFrom(directory, bhard, |directory + ":" + bhard|);
  }

  /** Digits, a colon, and a text that splits at its `q`. */
  lemma MatchLineAt(line: string, d: nat, rest: string, q: nat)
    requires LeadingDigits(line) == d && 0 < d < |line| && line[d..] == ":" + rest
    requires q < |rest| && SplitPoint(rest, |rest|) == Some(q)
    ensures MatchLine(line) == Some(Match(Block(line), line[..d], rest[..q], rest[q + 1..]))
  {
    assert line[d] == line[d..][0] == ':';
    assert line[d + 1..] == line[d..][1..] == rest;
  }

  lemma MatchOfLine(p: Project)
    requires FieldsOk(p.directory, p.bhard)
    ensures MatchLine(Line(p)) == Some(MatchOf(p))
  {
    LineStartsWithId(p);
    RestSplits(p.directory, p.bhard);
    MatchLineAt(Line(p), |FormatUint(p.id)|, p.directory + ":" + p.bhard, |p.directory|);
  }

  function MatchOf(p: Project): Match {
    Match(Block(Line(p)), FormatUint(p.id), p.directory, p.bhard)
  }

  lemma MatchesInBlock(line: string, rest: string)
    requires LineOk(line) && MatchLine(line).Some?
    ensures MatchesIn(Block(line) + rest) == [MatchLine(line).value] + MatchesIn(rest)
  {
    var text := Block(line) + rest;
    BlockParts(line, rest);
    IndexOfConcat(line, '\n', rest);
    assert text[1..][..|line|] == line && text[|line| + 2..] == rest;
  }

  ghost predicate Matched(m: Match, p: Project) {
    m == MatchOf(p) && ParseId(m.digits) == p.id
  }

  ghost predicate AllMatched(ms: seq<Match>, ps: seq<Project>) {
    |ms| == |ps| && forall i :: 0 <= i < |ps| ==> Matched(ms[i], ps[i])
  }

  lemma MatchedLine(p: Project)
    requires FieldsOk(p.directory, p.bhard)
    ensures MatchLine(Line(p)).Some? && Matched(MatchLine(Line(p)).value, p)
  {
    MatchOfLine(p);
    ValueOfFormat(p.id);
  }

  /** The second pattern parses the list of projects back, field by field. */
  lemma {:induction false} MatchesOfFile(ps: seq<Project>)
    requires ProjectsOk(ps)
    ensures AllMatched(MatchesIn(FileOf(ps)), ps)
  {
    if ps != [] {
      var p, rest := ps[0], ps[1..];
      assert ps == [p] + rest;
      LineIsOk(p);
      MatchedLine(p);
      MatchesOfFile(rest);
      FileCons(p, rest);
      MatchesInBlock(Line(p), FileOf(rest));
      AllMatchedCons(MatchLine(Line(p)).value, p, MatchesIn(FileOf(rest)), rest);
    }
  }

  lemma AllMatchedCons(m: Match, p: Project, ms: seq<Match>, ps: seq<Project>)
    requires Matched(m, p) && AllMatched(ms, ps)
    ensures AllMatched([m] + ms, [p] + ps)
  {
  }

  /** Printing is injective: the file determines the projects. */
  lemma FileDeterminesProjects(ps: seq<Project>, qs: seq<Project>)
    requires ProjectsOk(ps) && ProjectsOk(qs) && FileOf(ps) == FileOf(qs)
    ensures ps == qs
  {
    MatchesOfFile(ps);
    MatchesOfFile(qs);
    forall i | 0 <= i < |ps|
      ensures ps[i] == qs[i]
    {
      var ms := MatchesIn(FileOf(ps));
      assert Matched(ms[i], ps[i]) && Matched(ms[i], qs[i]);
    }
  }

  // ---- adding and removing ----

  lemma LinesCons(p: Project, ps: seq<Project>)
    ensures Lines([p] + ps) == [Line(p)] + Lines(ps)
  {
  }

  /** A line determines its project. */
  lemma LineDetermines(p: Project, q: Project)
    requires FieldsOk(p.directory, p.bhard) && FieldsOk(q.directory, q.bhard) && Line(p) == Line(q)
    ensures p == q
  {
    LineDeterminesId(p, q);
    MatchOfLine(p);
    MatchOfLine(q);
  }

  lemma {:induction false} LinesWithout(ps: seq<Project>, p: Project)
    requires FieldsOk(p.directory, p.bhard) && forall q :: q in ps ==> FieldsOk(q.directory, q.bhard)
    ensures Without(Lines(ps), Line(p)) == Lines(Without(ps, p))
  {
    if ps != [] {
      assert Lines(ps)[1..] == Lines(ps[1..]);
      LinesWithout(ps[1..], p);
      if Line(ps[0]) == Line(p) {
        LineDetermines(ps[0], p);
      } else {
        LinesCons(ps[0], Without(ps[1..], p));
      }
    }
  }

  lemma OtherIds(id: uint16, rest: seq<Project>, p: Project)
    requires forall i :: 0 <= i < |rest| ==> rest[i].id != id
    ensures forall i :: 0 <= i < |Without(rest, p)| ==> Without(rest, p)[i].id != id
  {
    forall i | 0 <= i < |Without(rest, p)|
      ensures Without(rest, p)[i].id != id
    {
      assert Without(rest, p)[i] in rest;
    }
  }

  lemma ConsOk(first: Project, rest: seq<Project>)
    requires FieldsOk(first.directory, first.bhard) && ProjectsOk(rest)
    requires forall i :: 0 <= i < |rest| ==> rest[i].id != first.id
    ensures ProjectsOk([first] + rest)
  {
  }

  lemma {:induction false} WithoutOk(ps: seq<Project>, p: Project)
    requires ProjectsOk(ps)
    ensures ProjectsOk(Without(ps, p))
  {
    if ps != [] {
      WithoutOk(ps[1..], p);
      if ps[0] != p {
        OtherIds(ps[0].id, ps[1..], p);
        ConsOk(ps[0], Without(ps[1..], p));
      }
    }
  }

  /** Replace-all of a project's block removes that project, and nothing if it is not there. */
  lemma RemoveProjectFromFile(ps: seq<Project>, p: Project)
    requires ProjectsOk(ps) && FieldsOk(p.directory, p.bhard)
    ensures RemoveAll(FileOf(ps), Block(Line(p))) == FileOf(Without(ps, p))
    ensures ProjectsOk(Without(ps, p))
    ensures p in ps ==> Ids(Without(ps, p)) == Ids(ps) - {p.id}
    ensures p !in ps ==> Without(ps, p) == ps
  {
    WithoutOk(ps, p);
    LinesOk(ps);
    LineIsOk(p);
    RemoveWholeBlock(Lines(ps), Line(p));
    LinesWithout(ps, p);
    if p in ps {
      IdsWithout(ps, p);
    }
  }

  lemma IdsWithout(ps: seq<Project>, p: Project)
    requires ProjectsOk(ps) && p in ps
    ensures Ids(Without(ps, p)) == Ids(ps) - {p.id}
  {
    forall x | x in Ids(ps) - {p.id}
      ensures x in Ids(Without(ps, p))
    {
      var q :| q in ps && q.id == x;
      assert q in Without(ps, p);
    }
    forall q | q in Without(ps, p)
      ensures q.id != p.id
    {
      assert q in ps && q != p;
    }
  }

  /** A file that ends early holds a list that starts the whole list. */
  lemma ShorterFile(l: seq<Project>, ps: seq<Project>)
    requires ProjectsOk(l) && ProjectsOk(ps) && FileOf(l) <= FileOf(ps)
    ensures l <= ps
  {
    LinesOk(l);
    LinesOk(ps);
    RenderPrefix(Lines(l), Lines(ps));
    forall i | 0 <= i < |l|
      ensures l[i] == ps[i]
    {
      assert Lines(l)[i] == Lines(ps)[i];
      LineDetermines(l[i], ps[i]);
    }
  }

  /** Fewer projects have fewer ids. */
  lemma PrefixIds(l: seq<Project>, ps: seq<Project>)
    requires ProjectsOk(ps) && l < ps
    ensures ps[|l|].id !in Ids(l) && Ids(l) != Ids(ps)
  {
    forall q | q in l
      ensures q.id != ps[|l|].id
    {
      var i :| 0 <= i < |l| && l[i] == q;
      assert ps[i] == q;
    }
    assert ps[|l|] in ps && ps[|l|].id in Ids(ps);
  }

  lemma LineNew(ps: seq<Project>, p: Project)
    requires ProjectsOk(ps) && FieldsOk(p.directory, p.bhard) && p.id !in Ids(ps)
    ensures Line(p) !in Lines(ps)
  {
    forall i | 0 <= i < |ps|
      ensures Lines(ps)[i] != Line(p)
    {
      if Line(ps[i]) == Line(p) {
        LineDeterminesId(ps[i], p);
      }
    }
  }

  /** A new project is appended; taking its block out again gives the file back. */
  lemma AddProjectToFile(ps: seq<Project>, p: Project)
    requires ProjectsOk(ps) && FieldsOk(p.directory, p.bhard) && p.id !in Ids(ps)
    ensures ProjectsOk(ps + [p]) && Ids(ps + [p]) == Ids(ps) + {p.id}
    ensures FileOf(ps) + Block(Line(p)) == FileOf(ps + [p])
    ensures RemoveAll(FileOf(ps) + Block(Line(p)), Block(Line(p))) == FileOf(ps)
  {
    assert ProjectsOk(ps + [p]) by {
      assert forall i :: 0 <= i < |ps| ==> ps[i] in ps && ps[i].id in Ids(ps);
    }
    LinesOk(ps + [p]);
    LinesOk(ps);
    LineIsOk(p);
    assert Lines(ps + [p]) == Lines(ps) + [Line(p)];
    LineNew(ps, p);
    AppendThenRemove(Lines(ps), Line(p));
    assert Ids(ps + [p]) == Ids(ps) + {p.id};
  }
}

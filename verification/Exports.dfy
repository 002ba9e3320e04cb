/** Kernel NFS exports: ids in a map and, redundantly, as fsid options in the exports file. */
module Exports {
  import opened Text
  import opened BlockFile
  import opened Projects

  datatype Export = Export(id: uint16, path: string, rootSquash: bool, subnet: string)

  /** The options before the id. */
  function Head(rootSquash: bool): (h: string)
    ensures '=' !in h && '\n' !in h
  {
    "rw,insecure," + if rootSquash then "root_squash" else "no_root_squash"
  }

  function Options(e: Export): string {
    Head(e.rootSquash) + ",fsid="
  }

  /** The line that the kernel exporter writes. */
  function ExportLine(e: Export): string {
    e.path + " " + (e.subnet + "(" + (Options(e) + FormatUint(e.id) + ")"))
  }

  predicate ExportOk(e: Export) {
    '\n' !in e.path && '\n' !in e.subnet
  }

  predicate ExportsOk(es: seq<Export>) {
    && (forall i :: 0 <= i < |es| ==> ExportOk(es[i]))
    && (forall i, j :: 0 <= i < j < |es| ==> es[i].id != es[j].id)
  }

  function ExportLines(es: seq<Export>): (r: seq<string>)
    ensures |r| == |es| && forall i :: 0 <= i < |es| ==> r[i] == ExportLine(es[i])
  {
    seq(|es|, i requires 0 <= i < |es| => ExportLine(es[i]))
  }

  function FileOfExports(es: seq<Export>): string {
    Render(ExportLines(es))
  }

  function ExportIds(es: seq<Export>): set<uint16> {
    set e | e in es :: e.id
  }

  // ---- the pattern ----

  const FSID := "fsid="

  /** The id in a match, unless it is too large for 16 bits. */
  function SmallId(digits: string): set<uint16>
    requires AllDigits(digits)
  {
    if Value(digits) < 0x1_0000 then {Value(digits)} else {}
  }

  /** All ids that getExistingIDs finds with the pattern `fsid=([0-9]+)`. */
  function FsidsIn(text: string): set<uint16>
    decreases |text|
  {
    if text == "" then {}
    else if FSID <= text && LeadingDigits(text[5..]) > 0 then
      var d := LeadingDigits(text[5..]);
      SmallId(text[5..][..d]) + FsidsIn(text[5 + d..])
    else FsidsIn(text[1..])
  }

  /** A match starts at this place. */
  predicate FsidAt(text: string, i: int, id: uint16)
    requires 0 <= i <= |text|
  {
    var after := text[i..];
    FSID <= after && LeadingDigits(after[5..]) > 0 && Value(after[5..][..LeadingDigits(after[5..])]) == id
  }

  lemma NoFsidInside(text: string, i: int, id: uint16)
    requires FSID <= text && 0 < i <= 5 + LeadingDigits(text[5..]) && i < |text|
    ensures i < 5 + LeadingDigits(text[5..]) ==> !FsidAt(text, i, id)
  {
    var d := LeadingDigits(text[5..]);
    if i < 5 {
      assert text[i] == FSID[i];
    } else if i < 5 + d {
      assert text[i] == text[5..][..d][i - 5];
    }
  }

  ghost predicate FsidFrom(text: string, k: nat, id: uint16) {
    exists i :: k <= i <= |text| && FsidAt(text, i, id)
  }

  /** The scan finds an id exactly if a match of that number starts somewhere: matches never overlap. */
  lemma {:induction false} FsidsInIff(text: string, id: uint16)
    ensures id in FsidsIn(text) <==> FsidFrom(text, 0, id)
    decreases |text|
  {
    if text != "" {
      var k := if FSID <= text && LeadingDigits(text[5..]) > 0 then 5 + LeadingDigits(text[5..]) else 1;
      FsidsInIff(text[k..], id);
      Shifted(text, k, id);
      AtStartOrBehind(text, k, id);
      FirstFsid(text, id);
    }
  }

  /** What the scan finds at the start of the text. */
  lemma FirstFsid(text: string, id: uint16)
    requires text != ""
    ensures var k := if FSID <= text && LeadingDigits(text[5..]) > 0 then 5 + LeadingDigits(text[5..]) else 1;
            id in FsidsIn(text) <==> FsidAt(text, 0, id) || id in FsidsIn(text[k..])
  {
    assert text[0..] == text;
  }

  lemma AtStartOrBehind(text: string, k: nat, id: uint16)
    requires k == (if FSID <= text && LeadingDigits(text[5..]) > 0 then 5 + LeadingDigits(text[5..]) else 1) <= |text|
    ensures FsidFrom(text, 0, id) <==> FsidAt(text, 0, id) || FsidFrom(text, k, id)
  {
    forall i | 0 < i < k
      ensures !FsidAt(text, i, id)
    {
      NoFsidInside(text, i, id);
    }
  }

  /** Matches behind a place, seen from there. */
  lemma Shifted(text: string, k: nat, id: uint16)
    requires k <= |text|
    ensures FsidFrom(text[k..], 0, id) <==> FsidFrom(text, k, id)
  {
    forall i | k <= i <= |text|
      ensures FsidAt(text, i, id) <==> FsidAt(text[k..], i - k, id)
    {
      assert text[i..] == text[k..][i - k..];
    }
    if i :| 0 <= i <= |text[k..]| && FsidAt(text[k..], i, id) {
      assert FsidAt(text, i + k, id);
    }
  }

  /** A character that no match contains. */
  predicate Separates(c: char) {
    c !in FSID && !IsDigit(c)
  }

  lemma {:induction false} LeadingDigitsStop(a: string, c: char, b: string)
    requires !IsDigit(c)
    ensures LeadingDigits(a + [c] + b) == LeadingDigits(a)
  {
    var s := a + [c] + b;
    if a == "" {
      assert s[0] == c;
    } else {
      assert s[0] == a[0] && s[1..] == a[1..] + [c] + b;
      LeadingDigitsStop(a[1..], c, b);
    }
  }

  lemma FsidPrefix(a: string, c: char, b: string)
    requires c !in FSID
    ensures FSID <= a + [c] + b <==> FSID <= a
  {
    var s := a + [c] + b;
    if |a| < 5 {
      assert FSID[|a|] in FSID && (|s| >= 5 ==> s[|a|] == c);
    }
  }

  /** Matches on both sides of a separator are found on their own. */
  lemma {:induction false} FsidsAround(a: string, c: char, b: string)
    requires Separates(c)
    ensures FsidsIn(a + [c] + b) == FsidsIn(a) + FsidsIn(b)
    decreases |a|
  {
    var s := a + [c] + b;
    FsidPrefix(a, c, b);
    if a == "" {
      assert s == [c] + b && s[1..] == b;
    } else if FSID <= a {
      assert s[5..] == a[5..] + [c] + b;
      LeadingDigitsStop(a[5..], c, b);
      var d := LeadingDigits(a[5..]);
      if d > 0 {
        assert s[5..][..d] == a[5..][..d];
        assert s[5 + d..] == a[5 + d..] + [c] + b;
        FsidsAround(a[5 + d..], c, b);
      } else {
        assert s[1..] == a[1..] + [c] + b;
        FsidsAround(a[1..], c, b);
      }
    } else {
      assert s[1..] == a[1..] + [c] + b;
      FsidsAround(a[1..], c, b);
    }
  }

  lemma {:induction false} NoFsid(a: string)
    requires '=' !in a
    ensures FsidsIn(a) == {}
  {
    if a != "" {
      if |a| >= 5 {
        assert FSID[4] == '=' && a[4] in a;
      }
      NoFsid(a[1..]);
    }
  }

  lemma FsidOfId(id: uint16)
    ensures FsidsIn(FSID + FormatUint(id)) == {id}
  {
    var text, digits := FSID + FormatUint(id), FormatUint(id);
    assert text[5..] == digits;
    LeadingDigitsOf(digits, "");
    assert digits + "" == digits && digits[..|digits|] == digits && text[5 + |digits|..] == "";
    ValueOfFormat(id);
  }

  /** The options of a line contribute the export's own id, once. */
  lemma FsidsOfOptions(e: Export)
    ensures FsidsIn(Options(e) + FormatUint(e.id) + ")") == {e.id}
  {
    var head, last := Head(e.rootSquash), FSID + FormatUint(e.id);
    OptionsParts(head, FormatUint(e.id));
    FsidsAround(head, ',', last + [')'] + "");
    FsidsAround(last, ')', "");
    NoFsid(head);
    FsidOfId(e.id);
  }

  lemma OptionsParts(head: string, digits: string)
    ensures head + ",fsid=" + digits + ")" == head + [','] + (FSID + digits + [')'] + "")
  {
  }

  /** What a line is read as: its id, and any match in its path or its subnet. */
  function Spurious(e: Export): set<uint16> {
    FsidsIn(e.path) + FsidsIn(e.subnet)
  }

  lemma FsidsOfLine(e: Export)
    ensures FsidsIn(ExportLine(e)) == {e.id} + Spurious(e)
  {
    var options := Options(e) + FormatUint(e.id) + ")";
    FsidsOfOptions(e);
    FsidsAround(e.subnet, '(', options);
    FsidsAround(e.path, ' ', e.subnet + ['('] + options);
    assert ExportLine(e) == e.path + [' '] + (e.subnet + ['('] + options);
  }

  function AllSpurious(es: seq<Export>): set<uint16> {
    if es == [] then {} else Spurious(es[0]) + AllSpurious(es[1..])
  }

  lemma ExportLinesOfCons(e: Export, es: seq<Export>)
    ensures ExportLines([e] + es) == [ExportLine(e)] + ExportLines(es)
  {
  }

  lemma ExportLinesCons(e: Export, es: seq<Export>)
    ensures FileOfExports([e] + es) == Block(ExportLine(e)) + FileOfExports(es)
  {
    ExportLinesOfCons(e, es);
    assert ([ExportLine(e)] + ExportLines(es))[1..] == ExportLines(es);
  }

  lemma BlockAround(line: string, rest: string)
    ensures Block(line) + rest == "" + ['\n'] + (line + ['\n'] + rest)
  {
  }

  lemma FsidsOfBlock(line: string, rest: string)
    ensures FsidsIn(Block(line) + rest) == FsidsIn(line) + FsidsIn(rest)
  {
    BlockAround(line, rest);
    FsidsAround("", '\n', line + ['\n'] + rest);
    FsidsAround(line, '\n', rest);
    assert FsidsIn("") == {};
  }

  lemma ExportIdsCons(e: Export, es: seq<Export>)
    ensures ExportIds([e] + es) == {e.id} + ExportIds(es)
  {
    assert forall x :: x in [e] + es <==> x == e || x in es;
  }

  lemma AllSpuriousCons(e: Export, es: seq<Export>)
    ensures AllSpurious([e] + es) == Spurious(e) + AllSpurious(es)
  {
    assert ([e] + es)[1..] == es;
  }

  /** What a restart reads: the ids of the exports, and the spurious ones. */
  lemma {:induction false} FsidsOfFile(es: seq<Export>)
    ensures FsidsIn(FileOfExports(es)) == ExportIds(es) + AllSpurious(es)
  {
    if es != [] {
      var e, rest := es[0], es[1..];
      assert es == [e] + rest;
      ExportLinesCons(e, rest);
      FsidsOfBlock(ExportLine(e), FileOfExports(rest));
      FsidsOfLine(e);
      FsidsOfFile(rest);
      ExportIdsCons(e, rest);
      AllSpuriousCons(e, rest);
    }
  }

  /** Restart is a round trip exactly when every "fsid=<number>" in a path or a subnet names an
      id that is taken anyway (or none at all). */
  lemma RestartExactIff(es: seq<Export>)
    ensures FsidsIn(FileOfExports(es)) == ExportIds(es) <==> AllSpurious(es) <= ExportIds(es)
  {
    FsidsOfFile(es);
  }

  /** An export whose subnet, which is free text, is "fsid=n": a restart takes n for a used id. */
  lemma SubnetReservesId(id: uint16, n: uint16, path: string, rootSquash: bool)
    requires '=' !in path && n != id
    ensures var e := Export(id, path, rootSquash, FSID + FormatUint(n));
            FsidsIn(FileOfExports([e])) == {id, n} && FsidsIn(FileOfExports([e])) != ExportIds([e])
  {
    var e := Export(id, path, rootSquash, FSID + FormatUint(n));
    NoFsid(path);
    FsidOfId(n);
    FsidsOfFile([e]);
    assert AllSpurious([e]) == Spurious(e) + AllSpurious([]);
    assert e in [e] && ExportIds([e]) == {id};
  }

  // ---- lines and blocks ----

  /** The text that is appended for an export. */
  lemma BlockText(e: Export)
    ensures var head := if e.rootSquash then "rw,insecure,root_squash" else "rw,insecure,no_root_squash";
            Block(ExportLine(e)) ==
              "\n" + e.path + " " + e.subnet + "(" + head + ",fsid=" + FormatUint(e.id) + ")\n"
  {
    HeadText(e.rootSquash);
    GatherBlock(e.path, e.subnet, Head(e.rootSquash), FormatUint(e.id));
  }

  lemma HeadText(rootSquash: bool)
    ensures Head(rootSquash) == if rootSquash then "rw,insecure,root_squash" else "rw,insecure,no_root_squash"
  {
  }

  lemma GatherBlock(path: string, subnet: string, head: string, digits: string)
    ensures Block(path + " " + (subnet + "(" + (head + ",fsid=" + digits + ")"))) ==
              "\n" + path + " " + subnet + "(" + head + ",fsid=" + digits + ")\n"
  {
    assert ")" + "\n" == ")\n";
  }

  /** A path without blanks and a subnet without "(": the line tells everything about its export. */
  lemma LineDeterminesExport(e: Export, f: Export)
    requires ' ' !in e.path && ' ' !in f.path && '(' !in e.subnet && '(' !in f.subnet
    requires ExportLine(e) == ExportLine(f)
    ensures e == f
  {
    var tail, tail' := Options(e) + FormatUint(e.id) + ")", Options(f) + FormatUint(f.id) + ")";
    FirstPart(e.path, f.path, ' ', e.subnet + ['('] + tail, f.subnet + ['('] + tail');
    FirstPart(e.subnet, f.subnet, '(', tail, tail');
    ExportLineDeterminesId(e, f);
    OptionsTell(e);
    OptionsTell(f);
  }

  lemma FirstPart(a: string, b: string, c: char, x: string, y: string)
    requires c !in a && c !in b && a + [c] + x == b + [c] + y
    ensures a == b && x == y
  {
    IndexOfConcat(a, c, x);
    IndexOfConcat(b, c, y);
    assert a == (a + [c] + x)[..|a|] && b == (b + [c] + y)[..|b|];
    assert x == (a + [c] + x)[|a| + 1..] && y == (b + [c] + y)[|b| + 1..];
  }

  lemma OptionsTell(e: Export)
    ensures var tail := Options(e) + FormatUint(e.id) + ")"; |tail| > 12 && (tail[12] == 'r' <==> e.rootSquash)
  {
    assert Head(e.rootSquash)[12] == if e.rootSquash then 'r' else 'n';
    assert Options(e)[12] == Head(e.rootSquash)[12];
  }

  lemma ExportLineOk(e: Export)
    requires ExportOk(e)
    ensures LineOk(ExportLine(e))
  {
    var digits := FormatUint(e.id);
    DigitsOnLine(e.id);
    assert '\n' !in Options(e);
    var tail := Options(e) + digits + ")";
    assert '\n' !in tail;
    assert '\n' !in e.subnet + "(" + tail;
    assert ExportLine(e)[|e.path|] == ' ';
  }

  /** How many digits `s` ends with. */
  function TrailingDigits(s: string): nat {
    if s == "" || !IsDigit(s[|s| - 1]) then 0 else 1 + TrailingDigits(s[..|s| - 1])
  }

  lemma {:induction false} TrailingDigitsOf(a: string, d: string)
    requires AllDigits(d)
    ensures TrailingDigits(a + "=" + d) == |d|
  {
    if d == "" {
      assert a + "=" + d == a + "=";
    } else {
      var s, less := a + "=" + d, d[..|d| - 1];
      assert s[..|s| - 1] == a + "=" + less && s[|s| - 1] == d[|d| - 1];
      TrailingDigitsOf(a, less);
    }
  }

  /** Two texts that end in "=", digits and ")" end in the same digits if they are equal. */
  lemma SameTail(a: string, d: string, b: string, f: string)
    requires AllDigits(d) && AllDigits(f) && a + "=" + d + ")" == b + "=" + f + ")"
    ensures d == f
  {
    var s, t := a + "=" + d, b + "=" + f;
    assert s == (s + ")")[..|s|] && t == (t + ")")[..|t|];
    TrailingDigitsOf(a, d);
    TrailingDigitsOf(b, f);
    assert d == s[|s| - |d|..] && f == t[|t| - |f|..];
  }

  lemma ExportLineDeterminesId(e: Export, f: Export)
    requires ExportLine(e) == ExportLine(f)
    ensures e.id == f.id
  {
    var a, b := BeforeId(e), BeforeId(f);
    BeforeIdParts(e);
    BeforeIdParts(f);
    SameTail(a, FormatUint(e.id), b, FormatUint(f.id));
    ValueOfFormat(e.id);
    ValueOfFormat(f.id);
  }

  function BeforeId(e: Export): string {
    e.path + " " + (e.subnet + "(" + (Head(e.rootSquash) + ",fsid"))
  }

  lemma BeforeIdParts(e: Export)
    ensures ExportLine(e) == BeforeId(e) + "=" + FormatUint(e.id) + ")"
  {
    MoveParts(e.path + " ", e.subnet + "(", Head(e.rootSquash), FormatUint(e.id));
  }

  lemma MoveParts(path: string, subnet: string, head: string, digits: string)
    ensures path + (subnet + (head + ",fsid=" + digits + ")")) ==
              path + (subnet + (head + ",fsid")) + "=" + digits + ")"
  {
    var tail := "=" + digits + ")";
    assert head + ",fsid=" + digits + ")" == head + ",fsid" + tail;
    assert subnet + (head + ",fsid" + tail) == subnet + (head + ",fsid") + tail;
  }

  lemma ExportLinesOk(es: seq<Export>)
    requires ExportsOk(es)
    ensures forall l :: l in ExportLines(es) ==> LineOk(l)
  {
    forall i | 0 <= i < |es|
      ensures LineOk(ExportLine(es[i]))
    {
      ExportLineOk(es[i]);
    }
  }

  /** Some export has the line of `e`, and so its id. */
  predicate HasLine(es: seq<Export>, e: Export) {
    ExportLine(e) in ExportLines(es)
  }

  /** The exports that have not the line of `e`. */
  function WithoutLine(es: seq<Export>, e: Export): (r: seq<Export>)
    ensures forall f :: f in r <==> f in es && ExportLine(f) != ExportLine(e)
  {
    if es == [] then []
    else if ExportLine(es[0]) == ExportLine(e) then WithoutLine(es[1..], e)
    else [es[0]] + WithoutLine(es[1..], e)
  }

  lemma {:induction false} LinesWithoutLine(es: seq<Export>, e: Export)
    ensures Without(ExportLines(es), ExportLine(e)) == ExportLines(WithoutLine(es, e))
  {
    if es != [] {
      assert ExportLines(es)[1..] == ExportLines(es[1..]);
      LinesWithoutLine(es[1..], e);
      if ExportLine(es[0]) != ExportLine(e) {
        ExportLinesOfCons(es[0], WithoutLine(es[1..], e));
      }
    }
  }

  lemma LaterIds(es: seq<Export>, later: seq<Export>)
    requires ExportsOk(es) && es != [] && forall f :: f in later ==> f in es[1..]
    ensures forall i :: 0 <= i < |later| ==> later[i].id != es[0].id
  {
    forall i | 0 <= i < |later|
      ensures later[i].id != es[0].id
    {
      assert later[i] in es[1..];
    }
  }

  lemma ExportConsOk(first: Export, rest: seq<Export>)
    requires ExportOk(first) && ExportsOk(rest) && forall i :: 0 <= i < |rest| ==> rest[i].id != first.id
    ensures ExportsOk([first] + rest)
  {
  }

  lemma {:induction false} WithoutLineOk(es: seq<Export>, e: Export)
    requires ExportsOk(es)
    ensures ExportsOk(WithoutLine(es, e))
  {
    if es != [] {
      WithoutLineOk(es[1..], e);
      if ExportLine(es[0]) != ExportLine(e) {
        LaterIds(es, WithoutLine(es[1..], e));
        ExportConsOk(es[0], WithoutLine(es[1..], e));
      }
    }
  }

  lemma {:induction false} NoSuchLine(es: seq<Export>, e: Export)
    requires forall f :: f in es ==> ExportLine(f) != ExportLine(e)
    ensures WithoutLine(es, e) == es
  {
    if es != [] {
      NoSuchLine(es[1..], e);
    }
  }

  lemma LineIffId(es: seq<Export>, e: Export, f: Export)
    requires ExportsOk(es) && HasLine(es, e) && f in es
    ensures ExportLine(f) == ExportLine(e) <==> f.id == e.id
  {
    var i :| 0 <= i < |es| && ExportLine(es[i]) == ExportLine(e);
    ExportLineDeterminesId(es[i], e);
    if ExportLine(f) == ExportLine(e) {
      ExportLineDeterminesId(f, e);
    }
  }

  lemma IdsWithoutLine(es: seq<Export>, e: Export)
    requires ExportsOk(es) && HasLine(es, e)
    ensures ExportIds(WithoutLine(es, e)) == ExportIds(es) - {e.id}
  {
    forall f | f in es
      ensures ExportLine(f) == ExportLine(e) <==> f.id == e.id
    {
      LineIffId(es, e, f);
    }
    forall id | id in ExportIds(es) - {e.id}
      ensures id in ExportIds(WithoutLine(es, e))
    {
      var f :| f in es && f.id == id;
      assert f in WithoutLine(es, e);
    }
  }

  lemma LineHasId(es: seq<Export>, e: Export)
    requires HasLine(es, e)
    ensures e.id in ExportIds(es)
  {
    var i :| 0 <= i < |es| && ExportLine(es[i]) == ExportLine(e);
    ExportLineDeterminesId(es[i], e);
    assert es[i] in es;
  }

  /** Replace-all of an export's block removes that export, and nothing if it is not there. */
  lemma RemoveExportFromFile(es: seq<Export>, e: Export)
    requires ExportsOk(es) && ExportOk(e)
    ensures RemoveAll(FileOfExports(es), Block(ExportLine(e))) == FileOfExports(WithoutLine(es, e))
    ensures ExportsOk(WithoutLine(es, e))
    ensures HasLine(es, e) ==> ExportIds(WithoutLine(es, e)) == ExportIds(es) - {e.id} && e.id in ExportIds(es)
    ensures !HasLine(es, e) ==> WithoutLine(es, e) == es
  {
    WithoutLineOk(es, e);
    ExportLinesOk(es);
    ExportLineOk(e);
    RemoveWholeBlock(ExportLines(es), ExportLine(e));
    LinesWithoutLine(es, e);
    if HasLine(es, e) {
      IdsWithoutLine(es, e);
      LineHasId(es, e);
    } else {
      forall f | f in es
        ensures ExportLine(f) != ExportLine(e)
      {
        var i :| 0 <= i < |es| && es[i] == f;
        assert ExportLines(es)[i] == ExportLine(f);
      }
      NoSuchLine(es, e);
    }
  }

  /** A file that ends early lacks an id. */
  lemma ShorterExports(l: seq<Export>, es: seq<Export>)
    requires ExportsOk(l) && ExportsOk(es) && FileOfExports(l) <= FileOfExports(es)
    requires FileOfExports(l) != FileOfExports(es)
    ensures ExportIds(l) != ExportIds(es)
  {
    ExportLinesOk(l);
    ExportLinesOk(es);
    RenderPrefix(ExportLines(l), ExportLines(es));
    assert |l| == |es| ==> ExportLines(l) == ExportLines(es);
    forall i | 0 <= i < |l|
      ensures l[i].id == es[i].id
    {
      assert ExportLines(l)[i] == ExportLines(es)[i];
      ExportLineDeterminesId(l[i], es[i]);
    }
    forall e | e in l
      ensures e.id != es[|l|].id
    {
      var i :| 0 <= i < |l| && l[i] == e;
      assert es[i].id != es[|l|].id;
    }
    assert es[|l|] in es && es[|l|].id in ExportIds(es);
  }

  /** A file determines the ids of its exports, though not how a line divides into path and
      subnet. */
  lemma FileDeterminesIds(es: seq<Export>, fs: seq<Export>)
    requires ExportsOk(es) && ExportsOk(fs) && FileOfExports(es) == FileOfExports(fs)
    ensures ExportIds(es) == ExportIds(fs)
  {
    ExportLinesOk(es);
    ExportLinesOk(fs);
    RenderInjective(ExportLines(es), ExportLines(fs));
    assert |es| == |ExportLines(es)| == |fs|;
    forall i | 0 <= i < |es|
      ensures es[i].id == fs[i].id
    {
      assert ExportLines(es)[i] == ExportLines(fs)[i];
      ExportLineDeterminesId(es[i], fs[i]);
    }
    IdsPointwise(es, fs);
  }

  lemma IdsPointwise(es: seq<Export>, fs: seq<Export>)
    requires |es| == |fs| && forall i :: 0 <= i < |es| ==> es[i].id == fs[i].id
    ensures ExportIds(es) == ExportIds(fs)
  {
    SomeIds(es, fs);
    SomeIds(fs, es);
  }

  lemma SomeIds(es: seq<Export>, fs: seq<Export>)
    requires |es| == |fs| && forall i :: 0 <= i < |es| ==> es[i].id == fs[i].id
    ensures ExportIds(es) <= ExportIds(fs)
  {
    forall id | id in ExportIds(es)
      ensures id in ExportIds(fs)
    {
      var i :| 0 <= i < |es| && es[i].id == id;
      assert fs[i] in fs;
    }
  }

  lemma AppendOk(es: seq<Export>, e: Export)
    requires ExportsOk(es) && ExportOk(e) && e.id !in ExportIds(es)
    ensures ExportsOk(es + [e]) && ExportIds(es + [e]) == ExportIds(es) + {e.id}
    ensures forall f :: f in es ==> f.id != e.id
  {
    assert forall i :: 0 <= i < |es| ==> es[i] in es && es[i].id in ExportIds(es);
  }

  lemma {:induction false} WithoutAdded(es: seq<Export>, e: Export)
    requires forall f :: f in es ==> f.id != e.id
    ensures WithoutLine(es + [e], e) == es
  {
    if es != [] {
      assert (es + [e])[1..] == es[1..] + [e] && (es + [e])[0] == es[0];
      if ExportLine(es[0]) == ExportLine(e) {
        ExportLineDeterminesId(es[0], e);
      }
      WithoutAdded(es[1..], e);
    }
  }

  lemma AddExportToFile(es: seq<Export>, e: Export)
    requires ExportsOk(es) && ExportOk(e) && e.id !in ExportIds(es)
    ensures ExportsOk(es + [e]) && ExportIds(es + [e]) == ExportIds(es) + {e.id}
    ensures FileOfExports(es) + Block(ExportLine(e)) == FileOfExports(es + [e])
    ensures WithoutLine(es + [e], e) == es && HasLine(es + [e], e)
  {
    AppendOk(es, e);
    assert ExportLines(es + [e]) == ExportLines(es) + [ExportLine(e)];
    RenderAppend(ExportLines(es), [ExportLine(e)]);
    assert Render([ExportLine(e)]) == Block(ExportLine(e)) + Render([]);
    WithoutAdded(es, e);
    assert ExportLines(es + [e])[|es|] == ExportLine(e);
  }
}

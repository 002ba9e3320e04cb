/** The "k:v,k:v" annotations of the gluster provisioners, printed at provisioning and read back
    at deletion. */
module GlusterAnnotations {
  import opened Common
  import opened Text

  datatype Entry = Entry(key: string, value: string)

  datatype ParseError = InvalidParameter | Panic

  // ---- the storage class parameter ----

  /** What parseBlockModeArgs promises: known keys, values without separators. */
  predicate ModeArgsOk(args: map<string, string>) {
    forall k :: k in args ==> k in {"glustervol", "hosts"} && args[k] != "" && ',' !in args[k] && '=' !in args[k]
  }

  /** A parameter without '=' makes the index panic. */
  predicate GoodParam(param: string) {
    var parts := Split(param, '='); parts[0] in {"glustervol", "hosts"} && |parts| >= 2 && parts[1] != ""
  }

  /** A parameter is accepted exactly if it is "glustervol=" or "hosts=" with a value, which may not
      start with '='. */
  lemma GoodParamIff(key: string, value: string)
    requires '=' !in key
    ensures GoodParam(key + "=" + value) <==> key in {"glustervol", "hosts"} && value != "" && value[0] != '='
    ensures !GoodParam(key)
  {
    SplitAppend(key, '=', value);
    assert key + "=" + value == key + ['='] + value;
    var parts := Split(value, '=');
    assert Split(key + "=" + value, '=') == [key] + parts && parts[0] == value[..IndexOf(value, '=')];
    IndexOfAbsent(key, '=');
    assert Split(key, '=') == [key];
  }

  predicate AllGood(params: seq<string>) {
    forall i :: 0 <= i < |params| ==> GoodParam(params[i])
  }

  /** For each key the value of its last parameter, up to the second '='. */
  function LastArgs(params: seq<string>): map<string, string>
    requires AllGood(params)
  {
    if params == [] then map[]
    else
      var parts := Split(params[|params| - 1], '=');
      LastArgs(params[..|params| - 1])[parts[0] := parts[1]]
  }

  /** One parameter: a known key and its value, an error, or a panic. */
  method ParseParam(param: string) returns (r: Result<Entry, ParseError>)
    ensures r.Ok? <==> GoodParam(param)
    ensures r.Ok? ==> r.value == Entry(Split(param, '=')[0], Split(param, '=')[1])
    ensures r == Err(Panic) <==> Split(param, '=')[0] in {"glustervol", "hosts"} && |Split(param, '=')| < 2
  {
    var paramInfo := Split(param, '=');
    if paramInfo[0] != "glustervol" && paramInfo[0] != "hosts" {
      return Err(InvalidParameter);
    }
    if |paramInfo| < 2 {
      return Err(Panic);
    }
    if paramInfo[1] == "" {
      return Err(InvalidParameter);
    }
    r := Ok(Entry(paramInfo[0], paramInfo[1]));
  }

  lemma ParamValueOk(param: string)
    requires GoodParam(param) && ',' !in param
    ensures ',' !in Split(param, '=')[1] && '=' !in Split(param, '=')[1]
  {
    PartsWithout(param, '=');
    PieceOf(param, '=', ',', 1);
  }

  method ParseBlockModeArgs(inArgs: string) returns (r: Result<map<string, string>, ParseError>)
    ensures r.Ok? <==> AllGood(Split(inArgs, ','))
    ensures r.Ok? ==> r.value == LastArgs(Split(inArgs, ',')) && ModeArgsOk(r.value) && r.value != map[]
  {
    var modeArgs: map<string, string> := map[];
    var params := Split(inArgs, ',');
    PartsWithout(inArgs, ',');
    var i := 0;
    while i < |params|
      invariant i <= |params| && AllGood(params[..i])
      invariant modeArgs == LastArgs(params[..i]) && ModeArgsOk(modeArgs) && (i > 0 ==> modeArgs != map[])
    {
      var p := ParseParam(params[i]);
      if p.Err? {
        return Err(p.error);
      }
      ParamValueOk(params[i]);
      LastArgsNext(params, i);
      ModeArgsNext(modeArgs, p.value.key, p.value.value);
      modeArgs := modeArgs[p.value.key := p.value.value];
      i := i + 1;
    }
    assert params[..i] == params;
    r := Ok(modeArgs);
  }

  lemma LastArgsNext(params: seq<string>, i: nat)
    requires i < |params| && AllGood(params[..i]) && GoodParam(params[i])
    ensures AllGood(params[..i + 1])
    ensures LastArgs(params[..i + 1]) == LastArgs(params[..i])[Split(params[i], '=')[0] := Split(params[i], '=')[1]]
  {
    assert params[..i + 1][..i] == params[..i] && params[..i + 1][i] == params[i];
    assert forall j :: 0 <= j < i ==> params[..i + 1][j] == params[..i][j];
  }

  /** The last parameter with a key gives its value, and there are no other keys. */
  lemma {:induction false} LastParamWins(params: seq<string>, i: nat)
    requires AllGood(params) && i < |params|
    requires forall j :: i < j < |params| ==> Split(params[j], '=')[0] != Split(params[i], '=')[0]
    ensures Split(params[i], '=')[0] in LastArgs(params)
    ensures LastArgs(params)[Split(params[i], '=')[0]] == Split(params[i], '=')[1]
  {
    var front := params[..|params| - 1];
    if i < |params| - 1 {
      assert forall j :: 0 <= j < |front| ==> front[j] == params[j];
      LastParamWins(front, i);
    }
  }

  lemma {:induction false} KeysOfParams(params: seq<string>, k: string)
    requires AllGood(params)
    ensures k in LastArgs(params) <==> exists i :: 0 <= i < |params| && Split(params[i], '=')[0] == k
  {
    if params != [] {
      var front := params[..|params| - 1];
      assert forall j :: 0 <= j < |front| ==> front[j] == params[j];
      KeysOfParams(front, k);
    }
  }

  lemma ModeArgsNext(args: map<string, string>, key: string, value: string)
    requires ModeArgsOk(args) && key in {"glustervol", "hosts"} && value != "" && ',' !in value && '=' !in value
    ensures ModeArgsOk(args[key := value]) && args[key := value] != map[]
  {
    assert key in args[key := value];
  }

  /** A part of a text has only characters of the text. */
  lemma {:induction false} PieceOf(s: string, c: char, d: char, i: nat)
    requires d !in s && i < |Split(s, c)|
    ensures d !in Split(s, c)[i]
    decreases |s|
  {
    var k := IndexOf(s, c);
    if k < |s| && i > 0 {
      PieceOf(s[k + 1..], c, d, i - 1);
    }
  }

  // ---- printing ----

  function Print(e: Entry): string {
    e.key + ":" + e.value
  }

  function PrintAll(es: seq<Entry>): (r: seq<string>)
    ensures |r| == |es| && forall i :: 0 <= i < |es| ==> r[i] == Print(es[i])
  {
    seq(|es|, i requires 0 <= i < |es| => Print(es[i]))
  }

  /** The map that a list of entries makes. */
  function MapOf(es: seq<Entry>): map<string, string> {
    if es == [] then map[] else MapOf(es[..|es| - 1])[es[|es| - 1].key := es[|es| - 1].value]
  }

  lemma PrintAllSnoc(es: seq<Entry>, e: Entry)
    ensures PrintAll(es + [e]) == PrintAll(es) + [Print(e)]
  {
  }

  lemma MapOfSnoc(es: seq<Entry>, e: Entry)
    ensures MapOf(es + [e]) == MapOf(es)[e.key := e.value]
  {
    assert (es + [e])[..|es|] == es;
  }

  lemma WithKey(args: map<string, string>, rest: set<string>, k: string)
    requires k in args && k in rest
    ensures (args - rest)[k := args[k]] == args - (rest - {k})
  {
  }

  /** `es` lists the arguments, in some order. */
  ghost predicate ListsArgs(es: seq<Entry>, args: map<string, string>) {
    MapOf(es) == args && forall i :: 0 <= i < |es| ==> es[i].key in args && es[i].value == args[es[i].key]
  }

  ghost predicate IsAnnotation(text: string, args: map<string, string>) {
    exists es :: ListsArgs(es, args) && text == Join(PrintAll(es), ',')
  }

  /** All arguments but those in `rest` have been printed. */
  ghost predicate Printed(blockString: seq<string>, es: seq<Entry>, args: map<string, string>, rest: set<string>) {
    && blockString == PrintAll(es) && MapOf(es) == args - rest
    && forall i :: 0 <= i < |es| ==> es[i].key in args && es[i].value == args[es[i].key]
  }

  lemma PrintedNext(blockString: seq<string>, es: seq<Entry>, args: map<string, string>, rest: set<string>, k: string)
    requires Printed(blockString, es, args, rest) && k in args && k in rest
    ensures Printed(blockString + [k + ":" + args[k]], es + [Entry(k, args[k])], args, rest - {k})
  {
    PrintAllSnoc(es, Entry(k, args[k]));
    MapOfSnoc(es, Entry(k, args[k]));
    WithKey(args, rest, k);
  }

  /** The annotation in gluster-block mode: the arguments in any order. */
  method BlockAnnotation(args: map<string, string>) returns (modeAnn: string)
    ensures IsAnnotation(modeAnn, args)
  {
    var blockString: seq<string> := [];
    ghost var es: seq<Entry> := [];
    modeAnn := "";
    var rest := args.Keys;
    assert args - rest == map[];
    while rest != {}
      invariant rest <= args.Keys && modeAnn == Join(blockString, ',')
      invariant Printed(blockString, es, args, rest)
      decreases |rest|
    {
      var k :| k in rest;
      PrintedNext(blockString, es, args, rest, k);
      blockString := blockString + [k + ":" + args[k]];
      es := es + [Entry(k, args[k])];
      modeAnn := Join(blockString, ',');
      rest := rest - {k};
    }
    assert args - rest == args;
    assert ListsArgs(es, args);
  }

  /** An annotation as it is stored. */
  lemma PrintedText(hosts: string, volume: string)
    ensures Join(PrintAll([Entry("hosts", hosts), Entry("glustervol", volume)]), ',') ==
              "hosts:" + hosts + ",glustervol:" + volume
  {
    var es := [Entry("hosts", hosts), Entry("glustervol", volume)];
    assert "hosts" + ":" == "hosts:" && "glustervol" + ":" == "glustervol:";
    assert Print(es[0]) == "hosts:" + hosts && Print(es[1]) == "glustervol:" + volume;
    assert PrintAll(es) == [Print(es[0]), Print(es[1])] && PrintAll(es)[1..] == [Print(es[1])];
    assert "," + ("glustervol:" + volume) == ",glustervol:" + volume;
  }

  function HeketiEntries(url: string, user: string, secret: string, secretNamespace: string): seq<Entry> {
    [Entry("url", url), Entry("user", user), Entry("secret", secret), Entry("secretnamespace", secretNamespace)]
  }

  function HeketiAnnotation(url: string, user: string, secret: string, secretNamespace: string): string {
    "url:" + url + "," + "user:" + user + "," + "secret:" + secret + "," + "secretnamespace:" + secretNamespace
  }

  // ---- parsing ----

  /** Reading one part: the url of a heketi annotation may contain ':', any other value ends at
      its first ':'. A part without ':' makes the index panic. */
  function ReadPart(part: string, heketi: bool): Option<Entry> {
    var s := Split(part, ':');
    if heketi && s[0] == "url" then Some(Entry(s[0], Join(s[1..], ':')))
    else if |s| < 2 then None
    else Some(Entry(s[0], s[1]))
  }

  function ReadParts(parts: seq<string>, heketi: bool): Option<map<string, string>> {
    if parts == [] then Some(map[])
    else
      var before := ReadParts(parts[..|parts| - 1], heketi);
      var last := parts[|parts| - 1];
      if before.None? || last == "" then before
      else
        var e := ReadPart(last, heketi);
        if e.None? then None else Some(before.value[e.value.key := e.value.value])
  }

  method ParseAnnotation(text: string, heketi: bool) returns (r: Result<map<string, string>, ParseError>)
    ensures r == var m := ReadParts(Split(text, ','), heketi); if m.Some? then Ok(m.value) else Err(Panic)
  {
    var parts := Split(text, ',');
    var args: map<string, string> := map[];
    var i := 0;
    while i < |parts|
      invariant i <= |parts| && ReadParts(parts[..i], heketi) == Some(args)
    {
      var v := parts[i];
      assert parts[..i + 1][..i] == parts[..i] && parts[..i + 1][i] == v;
      if v != "" {
        var s := Split(v, ':');
        if heketi && s[0] == "url" {
          args := args[s[0] := Join(s[1..], ':')];
        } else if |s| >= 2 {
          args := args[s[0] := s[1]];
        } else {
          StaysNone(parts, i + 1, heketi);
          return Err(Panic);
        }
      }
      i := i + 1;
    }
    assert parts[..i] == parts;
    r := Ok(args);
  }

  lemma {:induction false} StaysNone(parts: seq<string>, i: nat, heketi: bool)
    requires i <= |parts| && ReadParts(parts[..i], heketi).None?
    ensures ReadParts(parts, heketi).None?
    decreases |parts| - i
  {
    if i < |parts| {
      assert parts[..i + 1][..i] == parts[..i];
      StaysNone(parts, i + 1, heketi);
    } else {
      assert parts[..i] == parts;
    }
  }

  lemma TwoPartsIff(s: string, c: char)
    ensures |Split(s, c)| >= 2 <==> c in s
  {
    var k := IndexOf(s, c);
    if k == |s| {
      assert s[..k] == s;
    }
  }

  /** Reading panics exactly at a part that is not empty and has no ':', unless it is the key "url"
      of a heketi annotation. */
  lemma {:induction false} PanicIff(parts: seq<string>, heketi: bool)
    ensures ReadParts(parts, heketi).None? <==>
              exists i :: 0 <= i < |parts| && parts[i] != "" && ':' !in parts[i] && !(heketi && parts[i] == "url")
  {
    if parts != [] {
      var front, last := parts[..|parts| - 1], parts[|parts| - 1];
      PanicIff(front, heketi);
      assert forall j :: 0 <= j < |front| ==> front[j] == parts[j];
      TwoPartsIff(last, ':');
      if ':' !in last {
        IndexOfAbsent(last, ':');
      }
    }
  }

  /** The last part with a key gives its value: what is after the first ':', up to the next one
      unless it is the url of a heketi annotation. */
  lemma {:induction false} LastPartWins(parts: seq<string>, i: nat, heketi: bool)
    requires ReadParts(parts, heketi).Some? && i < |parts| && ':' in parts[i]
    requires forall j :: i < j < |parts| && parts[j] != "" ==> Split(parts[j], ':')[0] != Split(parts[i], ':')[0]
    ensures var key, m := Split(parts[i], ':')[0], ReadParts(parts, heketi).value;
            TwoPartsAt(parts[i]) && key in m
            && m[key] == if heketi && key == "url" then Join(Split(parts[i], ':')[1..], ':')
                         else Split(parts[i], ':')[1]
  {
    TwoPartsIff(parts[i], ':');
    var front := parts[..|parts| - 1];
    if i < |parts| - 1 {
      assert forall j :: 0 <= j < |front| ==> front[j] == parts[j];
      LastPartWins(front, i, heketi);
    }
  }

  predicate TwoPartsAt(part: string) {
    |Split(part, ':')| >= 2
  }

  // ---- round trips ----

  predicate EntryOk(e: Entry) {
    ',' !in e.key && ':' !in e.key && ',' !in e.value
  }

  predicate EntriesOk(es: seq<Entry>) {
    forall i :: 0 <= i < |es| ==> EntryOk(es[i])
  }

  /** What is read back for a value. */
  function ReadValue(key: string, value: string, heketi: bool): string {
    if heketi && key == "url" then value else value[..IndexOf(value, ':')]
  }

  lemma ReadPrinted(e: Entry, heketi: bool)
    requires EntryOk(e)
    ensures ReadPart(Print(e), heketi) == Some(Entry(e.key, ReadValue(e.key, e.value, heketi)))
  {
    SplitAppend(e.key, ':', e.value);
    SplitFirst(e.value, ':');
    JoinOfSplit(e.value, ':');
    var s := Split(Print(e), ':');
    assert Print(e) == e.key + [':'] + e.value;
    assert s == [e.key] + Split(e.value, ':') && s[1..] == Split(e.value, ':');
  }

  /** The map that reading the printed entries makes. */
  function ReadMap(es: seq<Entry>, heketi: bool): map<string, string> {
    if es == [] then map[]
    else
      var last := es[|es| - 1];
      ReadMap(es[..|es| - 1], heketi)[last.key := ReadValue(last.key, last.value, heketi)]
  }

  /** Every value as it is read back. */
  function ReadArgs(args: map<string, string>, heketi: bool): map<string, string> {
    map k | k in args :: ReadValue(k, args[k], heketi)
  }

  lemma {:induction false} ReadMapExact(es: seq<Entry>, heketi: bool)
    ensures ReadMap(es, heketi) == ReadArgs(MapOf(es), heketi)
  {
    if es != [] {
      ReadMapExact(es[..|es| - 1], heketi);
    }
  }

  lemma {:induction false} ReadAllPrinted(es: seq<Entry>, heketi: bool)
    requires EntriesOk(es)
    ensures ReadParts(PrintAll(es), heketi) == Some(ReadMap(es, heketi))
  {
    if es != [] {
      var rest, last := es[..|es| - 1], es[|es| - 1];
      ReadAllPrinted(rest, heketi);
      ReadPrinted(last, heketi);
      assert PrintAll(es)[..|es| - 1] == PrintAll(rest);
      assert Print(last)[|last.key|] == ':';
    }
  }

  lemma PrintedIsWhole(es: seq<Entry>)
    requires EntriesOk(es)
    ensures forall p :: p in PrintAll(es) ==> ',' !in p
  {
    forall i | 0 <= i < |es|
      ensures ',' !in PrintAll(es)[i]
    {
      assert EntryOk(es[i]);
    }
  }

  /** Printing any entries and reading them back: every value up to its first ':', the url of a
      heketi annotation whole. */
  lemma ReadJoined(es: seq<Entry>, heketi: bool)
    requires EntriesOk(es)
    ensures ReadParts(Split(Join(PrintAll(es), ','), ','), heketi) == Some(ReadArgs(MapOf(es), heketi))
  {
    ReadMapExact(es, heketi);
    if es == [] {
      assert Split("", ',') == [""];
      assert [""][..0] == [];
      assert ReadParts([""], heketi) == Some(map[]);
    } else {
      PrintedIsWhole(es);
      SplitJoin(PrintAll(es), ',');
      ReadAllPrinted(es, heketi);
    }
  }

  lemma WholeIffColonFree(value: string)
    ensures value[..IndexOf(value, ':')] == value <==> ':' !in value
  {
    if ':' !in value {
      IndexOfAbsent(value, ':');
    }
  }

  /** What is read is the original map exactly when every value that is cut at ':' has none. */
  lemma SameMapIff(args: map<string, string>, heketi: bool)
    ensures ReadArgs(args, heketi) == args
            <==> forall k :: k in args && !(heketi && k == "url") ==> ':' !in args[k]
  {
    var m := ReadArgs(args, heketi);
    forall k | k in args
      ensures m[k] == args[k] <==> (heketi && k == "url") || ':' !in args[k]
    {
      WholeIffColonFree(args[k]);
    }
  }

  lemma BlockEntriesOk(args: map<string, string>, es: seq<Entry>)
    requires ModeArgsOk(args) && ListsArgs(es, args)
    ensures EntriesOk(es)
  {
    assert ',' !in "glustervol" && ':' !in "glustervol" && ',' !in "hosts" && ':' !in "hosts";
    forall i | 0 <= i < |es|
      ensures EntryOk(es[i])
    {
      assert es[i].key == "glustervol" || es[i].key == "hosts";
    }
  }

  /** gluster-block: in whatever order the map was visited, the annotation reads back as the
      arguments exactly when no value contains ':'. */
  lemma BlockRoundTripIff(args: map<string, string>, text: string)
    requires ModeArgsOk(args) && IsAnnotation(text, args)
    ensures ReadParts(Split(text, ','), false) == Some(args) <==> forall k :: k in args ==> ':' !in args[k]
  {
    var es :| ListsArgs(es, args) && text == Join(PrintAll(es), ',');
    BlockEntriesOk(args, es);
    ReadJoined(es, false);
    SameMapIff(args, false);
  }

  function HeketiMap(url: string, user: string, secret: string, secretNamespace: string): map<string, string> {
    map["url" := url, "user" := user, "secret" := secret, "secretnamespace" := secretNamespace]
  }

  /** heketi: the annotation reads back as url, user, secret and namespace exactly when only the
      url contains ':'. */
  lemma HeketiRoundTripIff(url: string, user: string, secret: string, secretNamespace: string)
    requires ',' !in url && ',' !in user && ',' !in secret && ',' !in secretNamespace
    ensures ReadParts(Split(HeketiAnnotation(url, user, secret, secretNamespace), ','), true) ==
              Some(HeketiMap(url, user, secret, secretNamespace))
            <==> ':' !in user && ':' !in secret && ':' !in secretNamespace
  {
    var es := HeketiEntries(url, user, secret, secretNamespace);
    HeketiJoined(url, user, secret, secretNamespace);
    HeketiEntriesOk(url, user, secret, secretNamespace);
    ReadJoined(es, true);
    HeketiEntriesMap(url, user, secret, secretNamespace);
    SameMapIff(HeketiMap(url, user, secret, secretNamespace), true);
    HeketiValues(url, user, secret, secretNamespace);
  }

  lemma HeketiEntriesOk(url: string, user: string, secret: string, secretNamespace: string)
    requires ',' !in url && ',' !in user && ',' !in secret && ',' !in secretNamespace
    ensures EntriesOk(HeketiEntries(url, user, secret, secretNamespace))
  {
  }

  lemma HeketiEntriesMap(url: string, user: string, secret: string, secretNamespace: string)
    ensures MapOf(HeketiEntries(url, user, secret, secretNamespace)) == HeketiMap(url, user, secret, secretNamespace)
  {
    var es := HeketiEntries(url, user, secret, secretNamespace);
    assert es[..3][..2] == es[..2] && es[..2][..1] == es[..1] && es[..1][..0] == [];
    assert MapOf(es[..1]) == map["url" := url];
    assert MapOf(es[..2]) == map["url" := url, "user" := user];
    assert MapOf(es[..3]) == map["url" := url, "user" := user, "secret" := secret];
  }

  lemma HeketiValues(url: string, user: string, secret: string, secretNamespace: string)
    ensures var m := HeketiMap(url, user, secret, secretNamespace);
            (forall k :: k in m && k != "url" ==> ':' !in m[k]) <==>
              ':' !in user && ':' !in secret && ':' !in secretNamespace
  {
    var m := HeketiMap(url, user, secret, secretNamespace);
    assert |"user"| == 4 && |"url"| == 3 && |"secret"| == 6 && |"secretnamespace"| == 15;
    assert m["user"] == user && m["secret"] == secret && m["secretnamespace"] == secretNamespace;
  }

  lemma HeketiPrinted(url: string, user: string, secret: string, secretNamespace: string)
    ensures PrintAll(HeketiEntries(url, user, secret, secretNamespace)) ==
              ["url:" + url, "user:" + user, "secret:" + secret, "secretnamespace:" + secretNamespace]
  {
    var es := HeketiEntries(url, user, secret, secretNamespace);
    assert Print(es[0]) == "url:" + url && Print(es[1]) == "user:" + user;
    assert Print(es[2]) == "secret:" + secret && Print(es[3]) == "secretnamespace:" + secretNamespace;
  }

  lemma HeketiJoined(url: string, user: string, secret: string, secretNamespace: string)
    ensures HeketiAnnotation(url, user, secret, secretNamespace) ==
              Join(PrintAll(HeketiEntries(url, user, secret, secretNamespace)), ',')
  {
    HeketiPrinted(url, user, secret, secretNamespace);
    JoinFour("url:" + url, "user:" + user, "secret:" + secret, "secretnamespace:" + secretNamespace);
  }

  lemma JoinFour(a: string, b: string, c: string, d: string)
    ensures Join([a, b, c, d], ',') == a + "," + b + "," + c + "," + d
  {
    assert [a, b, c, d][1..] == [b, c, d] && [b, c, d][1..] == [c, d] && [c, d][1..] == [d];
    assert Join([c, d], ',') == c + "," + d;
    assert Join([b, c, d], ',') == b + "," + (c + "," + d);
  }
}

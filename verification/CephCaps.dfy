/** Capability strings of a Ceph client: comma-separated tokens that authorizing a share adds and
    deauthorizing it removes. */
module CephCaps {
  import opened Common
  import opened Text

  // ---- token sets and strings ----

  /** set(caps.split(",")), never empty. */
  function Tokens(caps: string): set<string> {
    set t | t in Split(caps, ',')
  }

  /** The tokens that say something: an absent capability reads as one empty token. */
  function Real(caps: string): set<string> {
    Tokens(caps) - {""}
  }

  function TokensOfAll(tokens: set<string>): set<string> {
    set t, u | t in tokens && u in Split(t, ',') :: u
  }

  lemma {:induction false} InSplitEach(parts: seq<string>, u: string)
    ensures u in SplitEach(parts, ',') <==> exists i :: 0 <= i < |parts| && u in Split(parts[i], ',')
  {
    if parts != [] {
      InSplitEach(parts[1..], u);
      assert SplitEach(parts, ',') == Split(parts[0], ',') + SplitEach(parts[1..], ',');
      assert forall i :: 0 <= i < |parts| - 1 ==> parts[1..][i] == parts[i + 1];
    }
  }

  /** Joining in any order and splitting again gives the tokens of all the parts. */
  lemma TokensOfJoin(parts: seq<string>, tokens: set<string>)
    requires parts != [] && forall t :: t in parts <==> t in tokens
    ensures Tokens(Join(parts, ',')) == TokensOfAll(tokens)
  {
    SplitJoinEach(parts, ',');
    forall u
      ensures u in Tokens(Join(parts, ',')) <==> u in TokensOfAll(tokens)
    {
      InSplitEach(parts, u);
      assert forall i :: 0 <= i < |parts| ==> parts[i] in tokens;
    }
  }

  lemma JoinIsEmptyIff(parts: seq<string>)
    ensures Join(parts, ',') == "" <==> parts == [] || parts == [""]
  {
  }

  /** ",".join(tokens), in whatever order the set is visited. */
  method JoinSet(tokens: set<string>) returns (caps: string)
    ensures Tokens(caps) == if tokens == {} then {""} else TokensOfAll(tokens)
    ensures caps == "" <==> tokens <= {""}
  {
    var parts, rest := [], tokens;
    while rest != {}
      invariant rest <= tokens && forall t :: t in parts <==> t in tokens - rest
      invariant forall i, j :: 0 <= i < j < |parts| ==> parts[i] != parts[j]
      decreases |rest|
    {
      var t :| t in rest;
      assert t !in parts;
      parts := parts + [t];
      rest := rest - {t};
    }
    caps := Join(parts, ',');
    assert forall t :: t in parts <==> t in tokens;
    OnlyEmptyIff(parts, tokens);
    JoinIsEmptyIff(parts);
    if parts != [] {
      TokensOfJoin(parts, tokens);
    }
  }

  lemma OnlyEmptyIff(parts: seq<string>, tokens: set<string>)
    requires forall t :: t in parts <==> t in tokens
    requires forall i, j :: 0 <= i < j < |parts| ==> parts[i] != parts[j]
    ensures parts == [] <==> tokens == {}
    ensures parts == [] || parts == [""] <==> tokens <= {""}
  {
    if parts == [] {
      assert forall t :: t !in tokens;
    } else {
      assert parts[0] in tokens;
      if |parts| > 1 {
        assert parts[1] in tokens;
      }
    }
  }

  /** Tokens do not split any further. */
  lemma TokensAreWhole(caps: string, kept: set<string>)
    requires kept <= Tokens(caps)
    ensures TokensOfAll(kept) == kept
  {
    PartsWithout(caps, ',');
    forall t | t in kept
      ensures Split(t, ',') == [t]
    {
      assert t in Split(caps, ',');
      SplitOne(t, ',');
    }
    forall u
      ensures u in TokensOfAll(kept) <==> u in kept
    {
      if u in kept {
        assert u in Split(u, ',');
      }
    }
  }

  method CapUpdate(orig: string, want: string, unwanted: string) returns (caps: string)
    ensures Tokens(caps) == Tokens(orig) - {unwanted} - {want} + Tokens(want)
  {
    var kept := Tokens(orig) - {unwanted} - {want};
    TokensAreWhole(orig, kept);
    assert TokensOfAll(kept + {want}) == TokensOfAll(kept) + Tokens(want);
    caps := JoinSet(Tokens(orig) - {unwanted} + {want});
    assert Tokens(orig) - {unwanted} + {want} == kept + {want};
  }

  method CapRemove(orig: string, want: set<string>) returns (caps: string)
    requires "" !in want
    ensures Real(caps) == Real(orig) - want
    ensures caps == "" <==> Real(caps) == {}
  {
    var kept := Tokens(orig) - want;
    TokensAreWhole(orig, kept);
    caps := JoinSet(kept);
  }

  // ---- the capabilities of a share ----

  datatype Share = Share(path: string, pool: string, namespace: Option<string>)

  /** An empty namespace counts as none. */
  function NamespacePart(s: Share): string {
    if s.namespace.Some? && s.namespace.value != "" then " namespace=" + s.namespace.value else ""
  }

  function Level(readonly: bool): string {
    if readonly then "r" else "rw"
  }

  function MdsCap(readonly: bool, s: Share): string {
    "allow " + Level(readonly) + " path=" + s.path
  }

  function OsdCap(readonly: bool, s: Share): string {
    "allow " + Level(readonly) + " pool=" + (s.pool + NamespacePart(s))
  }

  /** The texts of the capabilities. */
  lemma CapTexts(s: Share)
    ensures MdsCap(true, s) == "allow r path=" + s.path && MdsCap(false, s) == "allow rw path=" + s.path
    ensures s.namespace in {None, Some("")} ==>
              OsdCap(true, s) == "allow r pool=" + s.pool && OsdCap(false, s) == "allow rw pool=" + s.pool
    ensures s.namespace.Some? && s.namespace.value != "" ==>
              && OsdCap(true, s) == "allow r pool=" + s.pool + " namespace=" + s.namespace.value
              && OsdCap(false, s) == "allow rw pool=" + s.pool + " namespace=" + s.namespace.value
  {
    assert "allow " + "r" + " path=" == "allow r path=" && "allow " + "rw" + " path=" == "allow rw path=";
    assert "allow " + "r" + " pool=" == "allow r pool=" && "allow " + "rw" + " pool=" == "allow rw pool=";
  }

  function MdsCaps(s: Share): set<string> {
    {MdsCap(true, s), MdsCap(false, s)}
  }

  function OsdCaps(s: Share): set<string> {
    {OsdCap(true, s), OsdCap(false, s)}
  }

  const ALLOW_R := "allow r"

  predicate ShareOk(s: Share) {
    ',' !in s.path && ',' !in s.pool && ' ' !in s.pool && (s.namespace.Some? ==> ',' !in s.namespace.value)
  }

  /** Where the share's data is. */
  function DataPlace(s: Share): (string, string) {
    (s.pool, NamespacePart(s))
  }

  lemma LevelParts(readonly: bool, rest: string)
    ensures var cap := "allow " + Level(readonly) + " " + rest;
            cap[7] == (if readonly then ' ' else 'w') && cap[if readonly then 8 else 9..] == rest
  {
  }

  lemma {:induction false} PoolParts(pool: string, part: string)
    requires ' ' !in pool && (part == "" || part[0] == ' ')
    ensures IndexOf(pool + part, ' ') == |pool|
  {
    if part == "" {
      assert pool + part == pool;
      IndexOfAbsent(pool, ' ');
    } else {
      assert pool + part == pool + [' '] + part[1..];
      IndexOfConcat(pool, ' ', part[1..]);
    }
  }

  /** Capabilities of one kind are equal only for one level and one place, or one path. */
  lemma OsdCapInjective(a: bool, s: Share, b: bool, t: Share)
    requires ShareOk(s) && ShareOk(t) && OsdCap(a, s) == OsdCap(b, t)
    ensures a == b && DataPlace(s) == DataPlace(t)
  {
    var x, y := "pool=" + (s.pool + NamespacePart(s)), "pool=" + (t.pool + NamespacePart(t));
    assert OsdCap(a, s) == "allow " + Level(a) + " " + x && OsdCap(b, t) == "allow " + Level(b) + " " + y;
    LevelParts(a, x);
    LevelParts(b, y);
    assert s.pool + NamespacePart(s) == x[5..] && t.pool + NamespacePart(t) == y[5..];
    PoolParts(s.pool, NamespacePart(s));
    PoolParts(t.pool, NamespacePart(t));
    var whole := x[5..];
    assert s.pool == whole[..|s.pool|] && NamespacePart(s) == whole[|s.pool|..];
    assert t.pool == whole[..|t.pool|] && NamespacePart(t) == whole[|t.pool|..];
  }

  lemma MdsCapInjective(a: bool, s: Share, b: bool, t: Share)
    requires MdsCap(a, s) == MdsCap(b, t)
    ensures a == b && s.path == t.path
  {
    var x, y := "path=" + s.path, "path=" + t.path;
    assert MdsCap(a, s) == "allow " + Level(a) + " " + x && MdsCap(b, t) == "allow " + Level(b) + " " + y;
    LevelParts(a, x);
    LevelParts(b, y);
    assert s.path == x[5..] && t.path == y[5..];
  }

  /** Deauthorizing one share leaves another's data capability alone exactly when their data is
      in different places: in one pool without namespaces it takes the other's away. */
  lemma OthersUntouchedIff(s: Share, t: Share, readonly: bool)
    requires ShareOk(s) && ShareOk(t)
    ensures OsdCap(readonly, t) !in OsdCaps(s) <==> DataPlace(s) != DataPlace(t)
  {
    if OsdCap(readonly, t) == OsdCap(true, s) {
      OsdCapInjective(readonly, t, true, s);
    } else if OsdCap(readonly, t) == OsdCap(false, s) {
      OsdCapInjective(readonly, t, false, s);
    }
  }

  lemma CapsAreTokens(s: Share, readonly: bool)
    requires ShareOk(s)
    ensures Tokens(OsdCap(readonly, s)) == {OsdCap(readonly, s)}
    ensures Tokens(ALLOW_R + "," + MdsCap(readonly, s)) == {ALLOW_R, MdsCap(readonly, s)}
    ensures "" !in OsdCaps(s) && "" !in MdsCaps(s) && ALLOW_R !in MdsCaps(s)
  {
    assert ',' !in OsdCap(readonly, s) && ',' !in MdsCap(readonly, s);
    SplitOne(OsdCap(readonly, s), ',');
    SplitOne(MdsCap(readonly, s), ',');
    assert ',' !in ALLOW_R;
    SplitAppend(ALLOW_R, ',', MdsCap(readonly, s));
  }

  // ---- one client's entity ----

  datatype Caps = Caps(mds: string, osd: string)

  function OsdOf(entity: Option<Caps>): set<string> {
    if entity.None? then {} else Real(entity.value.osd)
  }

  function MdsOf(entity: Option<Caps>): set<string> {
    if entity.None? then {} else Real(entity.value.mds)
  }

  function AuthorizedOsd(osd: set<string>, s: Share, readonly: bool): set<string> {
    osd - OsdCaps(s) + {OsdCap(readonly, s)}
  }

  function AuthorizedMds(mds: set<string>, s: Share, readonly: bool): set<string> {
    mds - MdsCaps(s) + {ALLOW_R, MdsCap(readonly, s)}
  }

  /** Authorizing a share and deauthorizing it again gives the data capabilities back exactly if
      the share was not authorized before, and leaves at most "allow r" behind in mds. */
  lemma AuthorizeThenDeauthorize(osd: set<string>, mds: set<string>, s: Share, readonly: bool)
    requires ShareOk(s)
    ensures AuthorizedOsd(osd, s, readonly) - OsdCaps(s) == osd <==> osd !! OsdCaps(s)
    ensures AuthorizedMds(mds, s, readonly) - MdsCaps(s) == mds - MdsCaps(s) + {ALLOW_R}
  {
    CapsAreTokens(s, readonly);
    assert AuthorizedOsd(osd, s, readonly) - OsdCaps(s) == osd - OsdCaps(s);
    if osd - OsdCaps(s) == osd {
      assert osd * OsdCaps(s) == {};
    }
  }

  /** The shares a client is authorized for, with their access. */
  type Granted = map<Share, bool>

  ghost predicate Apart(shares: set<Share>) {
    && (forall s :: s in shares ==> ShareOk(s))
    && (forall s, t :: s in shares && t in shares && s != t ==> DataPlace(s) != DataPlace(t) && s.path != t.path)
  }

  function OsdGranted(g: Granted): set<string> {
    set s | s in g :: OsdCap(g[s], s)
  }

  function MdsGranted(g: Granted): set<string> {
    set s | s in g :: MdsCap(g[s], s)
  }

  /** The stored capabilities are exactly those of the granted shares, plus "allow r". */
  ghost predicate Reflects(entity: Option<Caps>, g: Granted) {
    && Apart(g.Keys)
    && (entity.None? <==> g == map[])
    && OsdOf(entity) == OsdGranted(g)
    && (entity.Some? ==> MdsOf(entity) == {ALLOW_R} + MdsGranted(g))
  }

  lemma GrantedWith(g: Granted, s: Share, readonly: bool)
    requires Apart(g.Keys + {s})
    ensures AuthorizedOsd(OsdGranted(g), s, readonly) == OsdGranted(g[s := readonly])
    ensures AuthorizedMds({ALLOW_R} + MdsGranted(g), s, readonly) == {ALLOW_R} + MdsGranted(g[s := readonly])
    ensures AuthorizedMds(MdsGranted(g), s, readonly) == {ALLOW_R} + MdsGranted(g[s := readonly])
  {
    CapsAreTokens(s, readonly);
    GrantedWithout(g, s);
    OsdInsert(g, s, readonly);
    assert g[s := readonly] - {s} == g - {s};
  }

  lemma OsdInsert(g: Granted, s: Share, readonly: bool)
    ensures OsdGranted(g[s := readonly]) == OsdGranted(g - {s}) + {OsdCap(readonly, s)}
    ensures MdsGranted(g[s := readonly]) == MdsGranted(g - {s}) + {MdsCap(readonly, s)}
  {
    var h := g[s := readonly];
    assert h[s] == readonly;
    assert forall t :: t in g - {s} ==> t in h && h[t] == (g - {s})[t];
  }

  /** Taking one share's capabilities away leaves exactly those of the others. */
  lemma GrantedWithout(g: Granted, s: Share)
    requires Apart(g.Keys + {s})
    ensures OsdGranted(g) - OsdCaps(s) == OsdGranted(g - {s})
    ensures MdsGranted(g) - MdsCaps(s) == MdsGranted(g - {s})
  {
    forall t | t in g && t != s
      ensures OsdCap(g[t], t) !in OsdCaps(s) && MdsCap(g[t], t) !in MdsCaps(s)
    {
      OthersUntouchedIff(s, t, g[t]);
      if MdsCap(g[t], t) == MdsCap(true, s) {
        MdsCapInjective(g[t], t, true, s);
      } else if MdsCap(g[t], t) == MdsCap(false, s) {
        MdsCapInjective(g[t], t, false, s);
      }
    }
    assert s in g ==> OsdCap(g[s], s) in OsdCaps(s) && MdsCap(g[s], s) in MdsCaps(s);
    assert forall t :: t in g && t != s ==> t in g - {s} && (g - {s})[t] == g[t];
  }

  lemma UpdatedOsd(orig: string, caps: string, s: Share, readonly: bool)
    requires ShareOk(s)
    requires var want := OsdCap(readonly, s);
             Tokens(caps) == Tokens(orig) - {OsdCap(!readonly, s)} - {want} + Tokens(want)
    ensures Real(caps) == AuthorizedOsd(Real(orig), s, readonly)
  {
    CapsAreTokens(s, readonly);
    assert OsdCaps(s) == {OsdCap(readonly, s), OsdCap(!readonly, s)};
    assert "" !in OsdCaps(s);
  }

  lemma UpdatedMds(orig: string, caps: string, s: Share, readonly: bool)
    requires ShareOk(s)
    requires var want := ALLOW_R + "," + MdsCap(readonly, s);
             Tokens(caps) == Tokens(orig) - {MdsCap(!readonly, s)} - {want} + Tokens(want)
    ensures Real(caps) == AuthorizedMds(Real(orig), s, readonly)
  {
    CapsAreTokens(s, readonly);
    CombinedIsNoToken(orig, ALLOW_R + "," + MdsCap(readonly, s));
    assert MdsCaps(s) == {MdsCap(readonly, s), MdsCap(!readonly, s)};
    TokensReplaced(Tokens(orig), MdsCap(!readonly, s), ALLOW_R + "," + MdsCap(readonly, s), MdsCap(readonly, s));
  }

  lemma TokensReplaced(orig: set<string>, unwanted: string, combined: string, own: string)
    requires combined !in orig && "" !in {own, unwanted}
    ensures orig - {unwanted} - {combined} + {ALLOW_R, own} - {""} == orig - {""} - {own, unwanted} + {ALLOW_R, own}
  {
  }

  /** The strings that authorizing a share stores. */
  method AuthorizedCaps(entity: Option<Caps>, s: Share, readonly: bool) returns (caps: Caps)
    requires ShareOk(s)
    ensures Real(caps.osd) == AuthorizedOsd(OsdOf(entity), s, readonly)
    ensures Real(caps.mds) == AuthorizedMds(MdsOf(entity), s, readonly)
  {
    var wantMds, wantOsd := ALLOW_R + "," + MdsCap(readonly, s), OsdCap(readonly, s);
    if entity.None? {
      CapsAreTokens(s, readonly);
      return Caps(wantMds, wantOsd);
    }
    var osd := CapUpdate(entity.value.osd, wantOsd, OsdCap(!readonly, s));
    var mds := CapUpdate(entity.value.mds, wantMds, MdsCap(!readonly, s));
    UpdatedOsd(entity.value.osd, osd, s, readonly);
    UpdatedMds(entity.value.mds, mds, s, readonly);
    caps := Caps(mds, osd);
  }

  /** What deauthorizing a share stores: nothing when no data capability is left. */
  method DeauthorizedCaps(entity: Option<Caps>, s: Share) returns (left: Option<Caps>)
    requires ShareOk(s)
    ensures OsdOf(left) == OsdOf(entity) - OsdCaps(s)
    ensures left.None? <==> OsdOf(entity) <= OsdCaps(s)
    ensures left.Some? ==> MdsOf(left) == MdsOf(entity) - MdsCaps(s)
  {
    CapsAreTokens(s, true);
    if entity.None? {
      return None;
    }
    var osd := CapRemove(entity.value.osd, OsdCaps(s));
    var mds := CapRemove(entity.value.mds, MdsCaps(s));
    if osd == "" && (osd == "" || mds == ALLOW_R) {
      left := None;
    } else {
      left := Some(Caps(mds, osd));
    }
  }

  lemma StillReflectsWith(before: Option<Caps>, g: Granted, s: Share, readonly: bool, caps: Caps)
    requires Reflects(before, g) && Apart(g.Keys + {s})
    requires Real(caps.osd) == AuthorizedOsd(OsdOf(before), s, readonly)
    requires Real(caps.mds) == AuthorizedMds(MdsOf(before), s, readonly)
    ensures Reflects(Some(caps), g[s := readonly])
  {
    GrantedWith(g, s, readonly);
    assert g[s := readonly].Keys == g.Keys + {s};
    assert s in g[s := readonly];
  }

  lemma StillReflectsWithout(before: Option<Caps>, g: Granted, s: Share, left: Option<Caps>)
    requires Reflects(before, g) && Apart(g.Keys + {s})
    requires OsdOf(left) == OsdOf(before) - OsdCaps(s) && (left.None? <==> OsdOf(before) <= OsdCaps(s))
    requires left.Some? ==> MdsOf(left) == MdsOf(before) - MdsCaps(s)
    ensures Reflects(left, g - {s})
  {
    GrantedWithout(g, s);
    NothingGrantedIff(g - {s});
    CapsAreTokens(s, true);
    ApartLess(g, s);
    AllowedStays(MdsGranted(g), s);
    assert left.None? <==> OsdGranted(g - {s}) == {};
  }

  lemma ApartLess(g: Granted, s: Share)
    requires Apart(g.Keys)
    ensures Apart((g - {s}).Keys)
  {
  }

  lemma AllowedStays(mds: set<string>, s: Share)
    requires ALLOW_R !in MdsCaps(s)
    ensures {ALLOW_R} + mds - MdsCaps(s) == {ALLOW_R} + (mds - MdsCaps(s))
  {
  }

  class CephClient {
    var entity: Option<Caps>
    ghost var granted: Granted

    ghost predicate Valid()
      reads this
    {
      Reflects(entity, granted)
    }

    constructor ()
      ensures Valid() && entity == None && granted == map[]
    {
      entity, granted := None, map[];
    }

    /** The share's tokens replace those of its other access level; all other tokens stay. */
    method Authorize(s: Share, readonly: bool)
      requires ShareOk(s)
      modifies this
      ensures entity.Some?
      ensures OsdOf(entity) == AuthorizedOsd(OsdOf(old(entity)), s, readonly)
      ensures MdsOf(entity) == AuthorizedMds(MdsOf(old(entity)), s, readonly)
      ensures granted == old(granted)[s := readonly]
      ensures old(Valid()) && Apart(old(granted).Keys + {s}) ==> Valid()
    {
      var caps := AuthorizedCaps(entity, s, readonly);
      if Valid() && Apart(granted.Keys + {s}) {
        StillReflectsWith(entity, granted, s, readonly, caps);
      }
      entity, granted := Some(caps), granted[s := readonly];
    }

    /** Exactly the share's tokens go; the entity goes exactly when no data capability is left. */
    method Deauthorize(s: Share)
      requires ShareOk(s)
      modifies this
      ensures OsdOf(entity) == OsdOf(old(entity)) - OsdCaps(s)
      ensures entity.None? <==> OsdOf(old(entity)) <= OsdCaps(s)
      ensures entity.Some? ==> MdsOf(entity) == MdsOf(old(entity)) - MdsCaps(s)
      ensures granted == old(granted) - {s}
      ensures old(Valid()) && Apart(old(granted).Keys + {s}) ==> Valid()
    {
      var left := DeauthorizedCaps(entity, s);
      if Valid() && Apart(granted.Keys + {s}) {
        StillReflectsWithout(entity, granted, s, left);
      }
      entity, granted := left, granted - {s};
    }
  }

  lemma NothingGrantedIff(g: Granted)
    ensures OsdGranted(g) == {} <==> g == map[]
  {
    if s :| s in g {
      assert OsdCap(g[s], s) in OsdGranted(g);
    }
  }

  /** A text with a comma is never a single token. */
  lemma CombinedIsNoToken(caps: string, want: string)
    requires ',' in want
    ensures want !in Tokens(caps)
  {
    PartsWithout(caps, ',');
  }
}

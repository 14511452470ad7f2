/** The collision check over sorted migration file names: comparing neighbours only. */
module Migrations {
  /** Go's string order: byte by byte, a proper prefix first. */
  predicate Less(x: string, y: string) {
    if y == "" then false
    else if x == "" then true
    else x[0] < y[0] || (x[0] == y[0] && Less(x[1..], y[1..]))
  }

  predicate AtMost(x: string, y: string) {
    x == y || Less(x, y)
  }

  ghost predicate Sorted(names: seq<string>) {
    forall i, j :: 0 <= i < j < |names| ==> AtMost(names[i], names[j])
  }

  /** strings.Split(name, "_")[0]. */
  function Version(name: string): string {
    if name == "" || name[0] == '_' then "" else [name[0]] + Version(name[1..])
  }

  /** It is the text before the first underscore, or all of the name. */
  lemma {:induction false} VersionShape(name: string)
    ensures var v := Version(name);
            && v <= name && '_' !in v
            && (|v| < |name| ==> name[|v|] == '_')
    decreases |name|
  {
    if name != "" && name[0] != '_' {
      var t := name[1..];
      VersionShape(t);
      assert name == [name[0]] + t;
    }
  }

  datatype Collision = NoCollision | Collision(first: string, second: string, version: string)

  function Versions(names: seq<string>): (vs: seq<string>)
    ensures |vs| == |names| && forall i :: 0 <= i < |names| ==> vs[i] == Version(names[i])
  {
    seq(|names|, i requires 0 <= i < |names| => Version(names[i]))
  }

  /** Position k repeats the version before it; before the first there is the empty one. */
  predicate Hit(vs: seq<string>, k: nat)
    requires k < |vs|
  {
    vs[k] == if k == 0 then "" else vs[k - 1]
  }

  /** The first position from k on whose version repeats its predecessor's, or the end. */
  function FirstHit(vs: seq<string>, k: nat): (n: nat)
    requires k <= |vs|
    ensures k <= n <= |vs| && forall j :: k <= j < n ==> !Hit(vs, j)
    ensures n < |vs| ==> Hit(vs, n)
    decreases |vs| - k
  {
    if k == |vs| || Hit(vs, k) then k else FirstHit(vs, k + 1)
  }

  /** What the scan reports when position n is the first hit. */
  function Report(names: seq<string>, vs: seq<string>, n: nat): Collision
    requires n <= |names| == |vs|
  {
    if n == |vs| then NoCollision else Collision(if n == 0 then "" else names[n - 1], names[n], vs[n])
  }

  function Scan(names: seq<string>): Collision {
    Report(names, Versions(names), FirstHit(Versions(names), 0))
  }

  lemma FirstHitIs(vs: seq<string>, n: nat)
    requires n <= |vs| && forall k :: 0 <= k < n ==> !Hit(vs, k)
    requires n < |vs| ==> Hit(vs, n)
    ensures FirstHit(vs, 0) == n
  {
  }

  /** duplicateMigrationVersion.  The scan starts from an empty previous version. */
  method DuplicateMigrationVersion(names: seq<string>) returns (r: Collision)
    ensures r == Scan(names)
  {
    ghost var vs := Versions(names);
    var prevVersion, prevName := "", "";
    r := NoCollision;
    var n := 0;
    while n < |names|
      invariant 0 <= n <= |names|
      invariant prevVersion == (if n == 0 then "" else vs[n - 1])
      invariant prevName == (if n == 0 then "" else names[n - 1])
      invariant FirstHit(vs, n) == FirstHit(vs, 0)
    {
      var v := Version(names[n]);
      assert v == vs[n] && (Hit(vs, n) <==> v == prevVersion);
      if v == prevVersion {
        return Collision(prevName, names[n], v);
      }
      prevVersion, prevName := v, names[n];
      n := n + 1;
    }
  }

  /** A string between two strings that start with `p` starts with `p`. */
  lemma {:induction false} BetweenKeepsPrefix(p: string, x: string, s: string, y: string)
    requires p <= x && p <= y && AtMost(x, s) && AtMost(s, y)
    ensures p <= s
    decreases |p|
  {
    if p != "" {
      assert x[0] == p[0] && y[0] == p[0];
      if s != x && s != y {
        assert s != "" && s[0] == p[0];
        PrefixTail(p, x);
        PrefixTail(p, y);
        BetweenKeepsPrefix(p[1..], x[1..], s[1..], y[1..]);
        assert s == [s[0]] + s[1..] && p == [p[0]] + p[1..];
      }
    }
  }

  lemma PrefixTail(p: string, x: string)
    requires p != "" && p <= x
    ensures p[1..] <= x[1..]
  {
    assert x[1..][..|p| - 1] == p[1..];
  }

  /** A name with a non-empty text before an underscore. */
  predicate Versioned(name: string) {
    Version(name) != "" && |Version(name)| < |name|
  }

  lemma {:induction false} VersionFromPrefix(name: string, v: string)
    requires '_' !in v && v + "_" <= name
    ensures Version(name) == v
    decreases |v|
  {
    assert name[0] == (v + "_")[0];
    if v != "" {
      PrefixTail(v + "_", name);
      assert (v + "_")[1..] == v[1..] + "_";
      VersionFromPrefix(name[1..], v[1..]);
    }
  }

  /** Names with the same version are contiguous in sorted order. */
  lemma SameVersionContiguous(names: seq<string>, i: nat, k: nat, j: nat)
    requires Sorted(names) && i < k < j < |names|
    requires Versioned(names[i]) && Versioned(names[j]) && Version(names[i]) == Version(names[j])
    ensures Version(names[k]) == Version(names[i])
  {
    var v := Version(names[i]);
    var p := v + "_";
    VersionShape(names[i]);
    VersionShape(names[j]);
    assert names[i][..|v| + 1] == p && names[j][..|v| + 1] == p;
    BetweenKeepsPrefix(p, names[i], names[k], names[j]);
    VersionFromPrefix(names[k], v);
  }

  ghost predicate Clash(names: seq<string>, i: int, j: int) {
    0 <= i < j < |names| && Version(names[i]) == Version(names[j])
  }

  /** `r` reports position `k` and its predecessor, they share a version, and no two names up to
      an earlier position do. */
  ghost predicate FirstClash(names: seq<string>, k: int, r: Collision) {
    && 0 < k < |names|
    && r == Collision(names[k - 1], names[k], Version(names[k]))
    && Clash(names, k - 1, k)
    && forall i, j :: Clash(names, i, j) ==> j >= k
  }

  /** On any sorted list of versioned names the neighbour scan reports a collision if and only
      if some two names share a version, and what it reports is the first such pair. */
  lemma NeighboursSuffice(names: seq<string>)
    requires Sorted(names) && forall i :: 0 <= i < |names| ==> Versioned(names[i])
    ensures Scan(names).Collision? <==> exists i, j :: Clash(names, i, j)
    ensures Scan(names).Collision? ==> exists k :: FirstClash(names, k, Scan(names))
  {
    var vs := Versions(names);
    var k := FirstHit(vs, 0);
    forall i, j | Clash(names, i, j)
      ensures k < |names| && j >= k
    {
      ClashHits(names, i, j);
      assert Hit(vs, i + 1);
    }
    if k < |names| {
      assert Versioned(names[0]);
      assert Clash(names, k - 1, k);
      assert FirstClash(names, k, Scan(names));
    }
  }

  ghost predicate NeighbourClash(names: seq<string>, k: int) {
    Clash(names, k - 1, k)
  }

  /** Two neighbours share a version. */
  ghost predicate Adjacent(names: seq<string>) {
    exists k :: NeighbourClash(names, k)
  }

  /** `name` is `v` followed by a character below the underscore. */
  predicate Continues(name: string, v: string) {
    v < name && name[|v|] < '_'
  }

  /** A bare name, one that has no underscore, is cut off from its namesake by a name that
      continues it with a character below the underscore. */
  ghost predicate Hidden(names: seq<string>, i: int, j: int) {
    && 0 <= i && i + 1 < j < |names|
    && '_' !in names[i]
    && Continues(names[i + 1], names[i])
    && names[i] + "_" <= names[j]
  }

  ghost predicate HiddenSomewhere(names: seq<string>) {
    exists i, j :: Hidden(names, i, j)
  }

  lemma {:induction false} LessExtends(p: string, x: string, y: string)
    requires p <= x && p <= y
    ensures Less(x, y) <==> Less(x[|p|..], y[|p|..])
    decreases |p|
  {
    if p != "" {
      assert x[0] == p[0] && y[0] == p[0];
      PrefixTail(p, x);
      PrefixTail(p, y);
      LessExtends(p[1..], x[1..], y[1..]);
      assert x[1..][|p[1..]|..] == x[|p|..] && y[1..][|p[1..]|..] == y[|p|..];
    }
  }

  lemma {:induction false} BareVersion(name: string)
    requires '_' !in name
    ensures Version(name) == name
    decreases |name|
  {
    if name != "" {
      BareVersion(name[1..]);
      assert name == [name[0]] + name[1..];
    }
  }

  /** Contiguity on all sorted lists: between two names of version v a name of another version
      lies only behind a bare v, and continues v with a character below the underscore. */
  lemma Between(names: seq<string>, i: nat, k: nat, j: nat)
    requires Sorted(names) && i < k < j < |names|
    requires Version(names[i]) == Version(names[j]) != Version(names[k])
    ensures names[i] == Version(names[i]) && Continues(names[k], names[i]) && names[i] + "_" <= names[j]
  {
    var v := Version(names[i]);
    VersionShape(names[i]);
    VersionShape(names[j]);
    VersionShape(names[k]);
    BetweenKeepsPrefix(v, names[i], names[k], names[j]);
    var x, s, y := names[i][|v|..], names[k][|v|..], names[j][|v|..];
    LessExtends(v, names[i], names[k]);
    LessExtends(v, names[k], names[j]);
    assert names[k] == v + s;
    AfterVersion(names[k], v);
    assert y != "" && y[0] == '_' && s[0] < '_';
    assert x == "";
    assert names[j][..|v| + 1] == v + "_";
  }

  /** A name of another version that starts with v goes on, and not with an underscore. */
  lemma AfterVersion(name: string, v: string)
    requires '_' !in v && v <= name
    ensures name == v || name[|v|] == '_' ==> Version(name) == v
  {
    if name == v {
      BareVersion(name);
    } else if name[|v|] == '_' {
      assert name[..|v| + 1] == v + "_";
      VersionFromPrefix(name, v);
    }
  }

  /** Whether any two names clash, in terms of neighbours and hidden pairs. */
  lemma ClashExactly(names: seq<string>)
    requires Sorted(names)
    ensures (exists i, j :: Clash(names, i, j)) <==> Adjacent(names) || HiddenSomewhere(names)
  {
    if i, j :| Clash(names, i, j) {
      if i + 1 == j || Version(names[i + 1]) == Version(names[i]) {
        assert NeighbourClash(names, i + 1);
      } else {
        Between(names, i, i + 1, j);
        VersionShape(names[i]);
        assert Hidden(names, i, j);
      }
    }
    if i, j :| Hidden(names, i, j) {
      BareVersion(names[i]);
      VersionFromPrefix(names[j], names[i]);
      assert Clash(names, i, j);
    }
  }

  lemma ScanReports(names: seq<string>)
    ensures Scan(names).Collision? <==> (names != [] && Version(names[0]) == "") || Adjacent(names)
    ensures names != [] && Version(names[0]) == "" ==> Scan(names) == Collision("", names[0], "")
  {
    var vs := Versions(names);
    var n := FirstHit(vs, 0);
    if 0 < n < |vs| {
      assert NeighbourClash(names, n);
    }
    if k :| NeighbourClash(names, k) {
      assert Hit(vs, k);
    }
  }

  /** On any sorted list of names: the scan misses a clash if and only if no neighbours clash, a
      bare name is cut off from its namesake, and the first version is not empty; and it raises
      a false alarm if and only if the first version is empty and there is neither. */
  lemma ScanExactly(names: seq<string>)
    requires Sorted(names)
    ensures var clash := exists i, j :: Clash(names, i, j);
            var emptyFirst := names != [] && Version(names[0]) == "";
            && (clash && Scan(names).NoCollision? <==> !Adjacent(names) && HiddenSomewhere(names) && !emptyFirst)
            && (!clash && Scan(names).Collision? <==> !Adjacent(names) && !HiddenSomewhere(names) && emptyFirst)
  {
    ClashExactly(names);
    ScanReports(names);
  }

  lemma FirstOfThree(x: string, y: string, z: string)
    requires Version(x) != "" && Version(y) != Version(x) && Version(z) != Version(y)
    ensures Scan([x, y, z]) == NoCollision
  {
    FirstHitIs(Versions([x, y, z]), 3);
  }

  /** The miss with any bare name: v, v with a 0 and more, v with an underscore and more. */
  lemma BareHides(v: string, x: string, y: string)
    requires v != "" && '_' !in v
    ensures var names := [v, v + "0" + x, v + "_" + y];
            Sorted(names) && Clash(names, 0, 2) && Scan(names) == NoCollision
  {
    var p, q := v + "0" + x, v + "_" + y;
    LessExtends(v, v, p);
    LessExtends(v, v, q);
    LessExtends(v, p, q);
    assert v[|v|..] == "" && p[|v|..] == "0" + x && q[|v|..] == "_" + y;
    BareVersion(v);
    assert v + "_" <= q;
    VersionFromPrefix(q, v);
    VersionShape(p);
    assert p[|v|] == '0';
    FirstOfThree(v, p, q);
  }

  /** A miss on three migration file names. */
  lemma BareNameHidesClash()
    ensures var names := ["v.up.sql", "v.up.sql0_a.up.sql", "v.up.sql_b.up.sql"];
            Sorted(names) && Clash(names, 0, 2) && Scan(names) == NoCollision
  {
    var v, x, y := "v.up.sql", "_a.up.sql", "b.up.sql";
    assert v + "0" + x == "v.up.sql0_a.up.sql" && v + "_" + y == "v.up.sql_b.up.sql";
    BareHides(v, x, y);
  }

  /** A false alarm: any single migration whose name starts with an underscore. */
  lemma EmptyVersionFalseAlarm(name: string)
    requires name != "" && name[0] == '_'
    ensures Scan([name]) == Collision("", name, "") && !exists i, j :: Clash([name], i, j)
  {
    ScanReports([name]);
  }

  lemma ClashHits(names: seq<string>, i: int, j: int)
    requires Sorted(names) && Clash(names, i, j)
    requires Versioned(names[i]) && Versioned(names[j])
    ensures Version(names[i + 1]) == Version(names[i])
  {
    if i + 1 < j {
      SameVersionContiguous(names, i, i + 1, j);
    }
  }
}

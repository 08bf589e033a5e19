/** Remote paths, the tree order on them, and the temporary names a staged upload uses. */
module Paths {
  type Path = string

  /** `p` names something strictly inside the directory `dir`. */
  predicate Below(dir: Path, p: Path) {
    |dir| < |p| && p[..|dir|] == dir && p[|dir|] == '/'
  }

  /** `p` is `root` itself or lies inside it. */
  predicate Within(root: Path, p: Path) {
    p == root || Below(root, p)
  }

  predicate Unrelated(p: Path, q: Path) {
    !Within(p, q) && !Within(q, p)
  }

  function Child(dir: Path, name: string): Path {
    dir + "/" + name
  }

  predicate PlainName(name: string) {
    name != "" && '/' !in name
  }

  lemma BelowChain(p: Path, q: Path, r: Path)
    requires Within(p, q) && Within(q, r)
    ensures Within(p, r)
    ensures Below(p, q) || Below(q, r) ==> Below(p, r)
  {
    assert r[..|q|][..|p|] == r[..|p|];
    if |p| < |q| {
      assert r[..|q|][|p|] == r[|p|];
    }
  }

  /** Two ancestors of one path are comparable. */
  lemma AncestorsAreComparable(p: Path, q: Path, r: Path)
    requires Within(p, r) && Within(q, r)
    ensures Within(p, q) || Within(q, p)
  {
    assert r[..|p|] == p && r[..|q|] == q;
    if |p| <= |q| {
      assert q[..|p|] == r[..|q|][..|p|] == r[..|p|];
    } else {
      assert p[..|q|] == r[..|p|][..|q|] == r[..|q|];
    }
  }

  /** Whatever lies inside one of two unrelated paths is unrelated to the other. */
  lemma UnrelatedInside(p: Path, q: Path, r: Path)
    requires Unrelated(p, q) && Within(p, r)
    ensures Unrelated(q, r)
  {
    if Within(q, r) {
      AncestorsAreComparable(p, q, r);
    }
    if Within(r, q) {
      BelowChain(p, r, q);
    }
  }

  lemma ChildIsBelow(dir: Path, name: string)
    ensures Below(dir, Child(dir, name))
  {
    assert Child(dir, name)[..|dir|] == dir;
  }

  lemma SiblingsAreUnrelated(dir: Path, a: string, b: string)
    requires PlainName(a) && PlainName(b) && a != b
    ensures Unrelated(Child(dir, a), Child(dir, b))
  {
    SiblingNotWithin(dir, a, b);
    SiblingNotWithin(dir, b, a);
  }

  lemma SiblingNotWithin(dir: Path, a: string, b: string)
    requires PlainName(a) && PlainName(b) && a != b
    ensures !Within(Child(dir, a), Child(dir, b))
  {
    var p, q := Child(dir, a), Child(dir, b);
    assert p[|dir| + 1..] == a && q[|dir| + 1..] == b;
    if |p| < |q| {
      assert q[|p|] == b[|p| - |dir| - 1];
    }
  }

  /** A strict descendant of `dir` lies within exactly one direct child of `dir`. */
  lemma DirectChildOf(dir: Path, p: Path) returns (child: Path)
    requires Below(dir, p)
    ensures Below(dir, child) && Within(child, p)
    ensures '/' !in child[|dir| + 1..]
  {
    var end := |dir| + 1;
    while end < |p| && p[end] != '/'
      invariant |dir| + 1 <= end <= |p|
      invariant '/' !in p[|dir| + 1..end]
    {
      assert p[|dir| + 1..end + 1] == p[|dir| + 1..end] + [p[end]];
      end := end + 1;
    }
    child := p[..end];
    assert child[..|dir|] == p[..|dir|];
    assert child[|dir| + 1..] == p[|dir| + 1..end];
  }

  // ---- Staging names ----

  function Digit(d: nat): char
    requires d < 10
  {
    "0123456789"[d]
  }

  /** Decimal rendering of a transfer id. */
  function Decimal(n: nat): (s: string)
    ensures s != ""
    ensures forall i :: 0 <= i < |s| ==> '0' <= s[i] <= '9'
  {
    if n < 10 then [Digit(n)] else Decimal(n / 10) + [Digit(n % 10)]
  }

  lemma {:induction false} DecimalIsInjective(m: nat, n: nat)
    requires Decimal(m) == Decimal(n)
    ensures m == n
  {
    var s, t := Decimal(m), Decimal(n);
    if m >= 10 {
      assert s[..|s| - 1] == Decimal(m / 10);
    }
    if n >= 10 {
      assert t[..|t| - 1] == Decimal(n / 10);
    }
    if m >= 10 && n >= 10 {
      DecimalIsInjective(m / 10, n / 10);
    }
    assert s[|s| - 1] == Digit(m % 10) && t[|t| - 1] == Digit(n % 10);
  }

  datatype Role = Part | Backup

  function Extension(role: Role): string {
    match role
    case Part => ".part"
    case Backup => ".backup"
  }

  const MARKER := ".termethis"

  /** The name under which transfer `id` keeps its partial content or the displaced original. */
  function StagingName(target: Path, id: nat, role: Role): Path {
    target + MARKER + "-" + Decimal(id) + Extension(role)
  }

  /** A staging name is a sibling of its target: whatever contains it contains the target. */
  lemma StagingIsASibling(dir: Path, target: Path, id: nat, role: Role)
    ensures Below(dir, StagingName(target, id, role)) ==> Below(dir, target)
  {
    var suffix := MARKER + "-" + Decimal(id) + Extension(role);
    var name := target + suffix;
    assert StagingName(target, id, role) == name;
    assert '/' !in MARKER && '/' !in Decimal(id) && '/' !in Extension(role);
    assert forall i :: |target| <= i < |name| ==> name[i] == suffix[i - |target|];
    if |dir| < |target| {
      assert name[..|dir|] == target[..|dir|];
    }
  }

  /** The last '-' splits a string in only one way. */
  lemma LastDashSplits(head: string, tail: string, head': string, tail': string)
    requires head + "-" + tail == head' + "-" + tail'
    requires '-' !in tail && '-' !in tail'
    ensures head == head' && tail == tail'
  {
    var s := head + "-" + tail;
    assert s[|head|] == '-' && s[|head'|] == '-';
    assert forall i :: |head| < i < |s| ==> s[i] == tail[i - |head| - 1];
    assert forall i :: |head'| < i < |s| ==> s[i] == tail'[i - |head'| - 1];
    assert |head| == |head'|;
    assert s[..|head|] == head && s[..|head|] == head';
    assert s[|head| + 1..] == tail && s[|head| + 1..] == tail';
  }

  /** Distinct (target, transfer, role) triples never share a staging name. */
  lemma StagingNamesAreInjective(t: Path, i: nat, r: Role, u: Path, j: nat, q: Role)
    requires StagingName(t, i, r) == StagingName(u, j, q)
    ensures t == u && i == j && r == q
  {
    var n := StagingName(t, i, r);
    assert n[|n| - 1] == Extension(r)[|Extension(r)| - 1] == Extension(q)[|Extension(q)| - 1];
    assert r == q;
    var stem := n[..|n| - |Extension(r)|];
    assert stem == t + MARKER + "-" + Decimal(i) && stem == u + MARKER + "-" + Decimal(j);
    StemsAreInjective(t, i, u, j);
  }

  lemma StemsAreInjective(t: Path, i: nat, u: Path, j: nat)
    requires t + MARKER + "-" + Decimal(i) == u + MARKER + "-" + Decimal(j)
    ensures t == u && i == j
  {
    LastDashSplits(t + MARKER, Decimal(i), u + MARKER, Decimal(j));
    DecimalIsInjective(i, j);
    assert (t + MARKER)[..|t|] == t && (u + MARKER)[..|u|] == u;
  }

  /** Staged uploads can run side by side: targets coincide or do not nest, and no target
      is named like (or lies inside) another transfer's staging name. */
  ghost predicate CompatibleTargets(targets: map<nat, Path>) {
    && (forall i, j :: i in targets && j in targets ==> targets[i] == targets[j] || Unrelated(targets[i], targets[j]))
    && (forall i, j, role :: i in targets && j in targets ==> !Within(StagingName(targets[j], j, role), targets[i]))
  }

  lemma TargetVersusStaging(targets: map<nat, Path>, i: nat, j: nat, role: Role)
    requires CompatibleTargets(targets) && i in targets && j in targets
    ensures Unrelated(targets[i], StagingName(targets[j], j, role))
  {
    StagingIsASibling(targets[i], targets[j], j, role);
  }

  lemma StagingVersusStaging(targets: map<nat, Path>, i: nat, r: Role, j: nat, q: Role)
    requires CompatibleTargets(targets) && i in targets && j in targets
    requires i != j || r != q
    ensures Unrelated(StagingName(targets[i], i, r), StagingName(targets[j], j, q))
  {
    StagingNotWithin(targets, i, r, j, q);
    StagingNotWithin(targets, j, q, i, r);
  }

  lemma StagingNotWithin(targets: map<nat, Path>, i: nat, r: Role, j: nat, q: Role)
    requires CompatibleTargets(targets) && i in targets && j in targets
    requires i != j || r != q
    ensures !Within(StagingName(targets[i], i, r), StagingName(targets[j], j, q))
  {
    if StagingName(targets[i], i, r) == StagingName(targets[j], j, q) {
      StagingNamesAreInjective(targets[i], i, r, targets[j], j, q);
    }
    StagingIsASibling(StagingName(targets[i], i, r), targets[j], j, q);
  }

  /** A target and its two staging names lie apart. */
  lemma NamesApart(target: Path, id: nat)
    ensures Unrelated(target, StagingName(target, id, Part)) && Unrelated(target, StagingName(target, id, Backup))
    ensures Unrelated(StagingName(target, id, Part), StagingName(target, id, Backup))
  {
    var targets: map<nat, Path> := map[id := target];
    assert CompatibleTargets(targets);
    TargetVersusStaging(targets, id, id, Part);
    TargetVersusStaging(targets, id, id, Backup);
    StagingVersusStaging(targets, id, Part, id, Backup);
  }
}

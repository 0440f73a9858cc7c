/**
 * `QualifiedPath` (crates/rune/src/worker.rs): the string components naming a
 * declaration, with the ancestor queries the scope tree uses.
 */
module QualifiedPaths {
  import opened Components

  /** An ordered list of path components, compared component-wise. */
  type QualifiedPath = seq<string>

  predicate IsPrefix(p: QualifiedPath, q: QualifiedPath) {
    |p| <= |q| && p == q[..|p|]
  }

  /**
   * `common_ancestor`: zips both paths and keeps components while they agree.
   * The result is a prefix of both, and it stops where one path ends or the
   * next components differ.
   */
  function CommonAncestor(a: QualifiedPath, b: QualifiedPath): (r: QualifiedPath)
    ensures IsPrefix(r, a) && IsPrefix(r, b)
    ensures |r| == |a| || |r| == |b| || a[|r|] != b[|r|]
  {
    if a == [] || b == [] || a[0] != b[0] then []
    else [a[0]] + CommonAncestor(a[1..], b[1..])
  }

  /** Every common prefix of two paths is a prefix of their common ancestor: it is the longest one. */
  lemma {:induction false} CommonAncestorIsLongest(a: QualifiedPath, b: QualifiedPath, p: QualifiedPath)
    requires IsPrefix(p, a) && IsPrefix(p, b)
    ensures IsPrefix(p, CommonAncestor(a, b))
  {
    if p != [] {
      assert a[0] == p[0] == b[0];
      assert p[1..] == a[1..][..|p| - 1];
      assert p[1..] == b[1..][..|p| - 1];
      CommonAncestorIsLongest(a[1..], b[1..], p[1..]);
    }
  }

  /**
   * A common prefix after which the two paths part, or one of them ends,
   * is their common ancestor.
   */
  lemma {:induction false} CommonAncestorAt(a: QualifiedPath, b: QualifiedPath, p: QualifiedPath)
    requires IsPrefix(p, a) && IsPrefix(p, b)
    requires |p| == |a| || |p| == |b| || a[|p|] != b[|p|]
    ensures CommonAncestor(a, b) == p
  {
    if p != [] {
      assert a[0] == p[0] == b[0];
      assert p[1..] == a[1..][..|p| - 1];
      assert p[1..] == b[1..][..|p| - 1];
      if |p| < |a| && |p| < |b| {
        assert a[1..][|p| - 1] == a[|p|] && b[1..][|p| - 1] == b[|p|];
      }
      CommonAncestorAt(a[1..], b[1..], p[1..]);
      assert [p[0]] + p[1..] == p;
    }
  }

  /** The common ancestor does not depend on the order of its arguments. */
  lemma {:induction false} CommonAncestorSymmetric(a: QualifiedPath, b: QualifiedPath)
    ensures CommonAncestor(a, b) == CommonAncestor(b, a)
  {
    if a != [] && b != [] && a[0] == b[0] {
      CommonAncestorSymmetric(a[1..], b[1..]);
    }
  }

  /**
   * `is_ancestor_of` as written: a shorter length AND equal slices over the
   * whole vectors, which cannot both hold.
   */
  function IsAncestorOf(a: QualifiedPath, b: QualifiedPath): bool {
    |a| < |b| && a == b
  }

  /**
   * `is_super_of` as written: the same contradiction. `other.len() - 1` would
   * underflow on an empty `other`, so the source needs it non-empty.
   */
  function IsSuperOf(a: QualifiedPath, b: QualifiedPath): bool
    requires |b| > 0
  {
    |a| == |b| - 1 && a == b
  }

  /** The ancestor test is false for every pair, a genuine ancestor included. */
  lemma IsAncestorOfNeverHolds(a: QualifiedPath, b: QualifiedPath)
    ensures !IsAncestorOf(a, b)
    ensures IsPrefix(["crate"], ["crate", "m"]) && !IsAncestorOf(["crate"], ["crate", "m"])
  {
  }

  /** The parent test is false for every pair, a genuine parent included. */
  lemma IsSuperOfNeverHolds(a: QualifiedPath, b: QualifiedPath)
    requires |b| > 0
    ensures !IsSuperOf(a, b)
    ensures !IsSuperOf(["crate"], ["crate", "m"])
  {
  }

  /** The string form of one item component: a name, or the decimal sibling index. */
  function ComponentString(c: Component): string {
    match c
    case String(s) => s
    case Block(n) => DecimalString(n)
    case Closure(n) => DecimalString(n)
    case AsyncBlock(n) => DecimalString(n)
    case Macro(n) => DecimalString(n)
  }

  /** `From<&Item> for QualifiedPath`: one string per item component, in order. */
  function FromItem(item: Item): (r: QualifiedPath)
    ensures |r| == |item|
    ensures forall i :: 0 <= i < |item| ==> r[i] == ComponentString(item[i])
  {
    if item == [] then [] else [ComponentString(item[0])] + FromItem(item[1..])
  }

  /** Numbered components render as their index: the index can be read back from the path. */
  lemma FromItemNumbered(item: Item, i: nat)
    requires i < |item| && item[i].IsNumbered()
    ensures forall k :: 0 <= k < |FromItem(item)[i]| ==> IsDigit(FromItem(item)[i][k])
    ensures ParseDecimal(FromItem(item)[i]) == item[i].index
  {
    DecimalRoundTrip(item[i].index);
  }

  /**
   * `into_iter`: the components in order with the empty strings removed (the
   * empty root name `""` would otherwise break imports). The tree's `find`
   * filters its input the same way.
   */
  function NonEmpty(q: QualifiedPath): (r: QualifiedPath)
    ensures |r| <= |q|
    ensures forall i :: 0 <= i < |r| ==> r[i] != ""
  {
    if q == [] then []
    else if q[0] == "" then NonEmpty(q[1..])
    else [q[0]] + NonEmpty(q[1..])
  }

  /** Filtering distributes over concatenation. */
  lemma {:induction false} NonEmptyAppend(a: QualifiedPath, b: QualifiedPath)
    ensures NonEmpty(a + b) == NonEmpty(a) + NonEmpty(b)
  {
    if a == [] {
      assert a + b == b;
    } else {
      assert (a + b)[0] == a[0] && (a + b)[1..] == a[1..] + b;
      NonEmptyAppend(a[1..], b);
    }
  }

  /** A path without empty components passes through unchanged, so filtering is idempotent. */
  lemma {:induction false} NonEmptyKeepsNames(q: QualifiedPath)
    requires forall i :: 0 <= i < |q| ==> q[i] != ""
    ensures NonEmpty(q) == q
  {
    if q != [] {
      NonEmptyKeepsNames(q[1..]);
    }
  }

  /** Every kept component came from the input, and every non-empty input component is kept. */
  lemma {:induction false} NonEmptyMembers(q: QualifiedPath, s: string)
    ensures s in NonEmpty(q) <==> s in q && s != ""
  {
    if q != [] {
      NonEmptyMembers(q[1..], s);
      assert q == [q[0]] + q[1..];
    }
  }
}

// The transaction Merkle root: the level-by-level loop computes the tree that
// splits its leaves in halves, and the root binds a list exactly as far as its
// length is known.
module Merkle {
  import opened Common

  /** The height of the tree over `n` leaves: the least k with n <= 2^k. */
  function Depth(n: nat): (k: nat)
    requires n > 0
    ensures n <= Pow2(k)
    ensures k > 0 ==> n > Pow2(k - 1)
  {
    if n == 1 then 0 else 1 + Depth((n + 1) / 2)
  }

  /** The tree of height `k`, from the top: the left subtree is full, and a
      right subtree without leaves is a copy of the left one. */
  function Tree<H>(leaves: seq<H>, k: nat, h: (H, H) -> H): H
    requires 0 < |leaves| <= Pow2(k)
    decreases k
  {
    if k == 0 then leaves[0]
    else
      var half := Pow2(k - 1);
      if |leaves| <= half then
        var left := Tree(leaves, k - 1, h);
        h(left, left)
      else
        h(Tree(leaves[..half], k - 1, h), Tree(leaves[half..], k - 1, h))
  }

  function Root<H>(leaves: seq<H>, h: (H, H) -> H): H
    requires leaves != []
  {
    Tree(leaves, Depth(|leaves|), h)
  }

  // --------------------------------------------------------------- one level

  function PairAt<H>(nodes: seq<H>, i: nat, h: (H, H) -> H): H
    requires 2 * i < |nodes|
  {
    h(nodes[2 * i], if 2 * i + 1 < |nodes| then nodes[2 * i + 1] else nodes[2 * i])
  }

  function Level<H>(nodes: seq<H>, h: (H, H) -> H): (next: seq<H>)
    ensures |next| == (|nodes| + 1) / 2
    ensures forall i :: 0 <= i < |next| ==> next[i] == PairAt(nodes, i, h)
  {
    seq((|nodes| + 1) / 2, i requires 0 <= i < (|nodes| + 1) / 2 => PairAt(nodes, i, h))
  }

  lemma LevelSplits<H>(nodes: seq<H>, half: nat, h: (H, H) -> H)
    requires 2 * half <= |nodes|
    ensures Level(nodes, h)[..half] == Level(nodes[..2 * half], h)
    ensures Level(nodes, h)[half..] == Level(nodes[2 * half..], h)
  {
  }

  /** Pairing the nodes of one level takes one step off the tree. */
  lemma {:induction false} LevelKeepsTree<H>(nodes: seq<H>, k: nat, h: (H, H) -> H)
    requires k > 0 && 0 < |nodes| <= Pow2(k)
    ensures Tree(nodes, k, h) == Tree(Level(nodes, h), k - 1, h)
    decreases k
  {
    hide Level;
    if k == 1 {
      SmallTree(nodes, h);
    } else {
      var half, quarter := Pow2(k - 1), Pow2(k - 2);
      if |nodes| <= half {
        LevelKeepsTree(nodes, k - 1, h);
      } else {
        LevelSplits(nodes, quarter, h);
        LevelKeepsTree(nodes[..half], k - 1, h);
        LevelKeepsTree(nodes[half..], k - 1, h);
      }
    }
  }

  lemma SmallTree<H>(nodes: seq<H>, h: (H, H) -> H)
    requires 1 <= |nodes| <= 2
    ensures Pow2(1) == 2
    ensures Tree(nodes, 1, h) == Level(nodes, h)[0]
  {
    assert Tree([nodes[0]], 0, h) == nodes[0];
    if |nodes| == 2 {
      assert nodes[..1] == [nodes[0]] && nodes[1..] == [nodes[1]];
      assert Tree([nodes[1]], 0, h) == nodes[1];
    } else {
      assert nodes == [nodes[0]];
    }
  }

  // --------------------------------------------------------------- the loop

  /** `merkle_root`. Its only demand, as in the code, is a nonempty list. */
  method MerkleRoot<H>(leaves: seq<H>, h: (H, H) -> H) returns (root: H)
    requires leaves != []
    ensures root == Root(leaves, h)
  {
    hide Tree;
    var nodes := leaves;
    while |nodes| > 1
      invariant nodes != []
      invariant Root(nodes, h) == Root(leaves, h)
      decreases |nodes|
    {
      LevelKeepsTree(nodes, Depth(|nodes|), h);
      nodes := PairUp(nodes, h);
    }
    SingleTree(nodes, h);
    return nodes[0];
  }

  lemma SingleTree<H>(nodes: seq<H>, h: (H, H) -> H)
    requires |nodes| == 1
    ensures Root(nodes, h) == nodes[0]
  {
  }

  // One round: the last node of an odd level is doubled, then chunks of two are hashed.
  method PairUp<H>(before: seq<H>, h: (H, H) -> H) returns (next: seq<H>)
    requires before != []
    ensures next == Level(before, h)
  {
    var nodes := before;
    if |nodes| % 2 == 1 {
      nodes := nodes + [nodes[|nodes| - 1]];
    }
    next := [];
    for i := 0 to |nodes| / 2
      invariant next == Level(before, h)[..i]
    {
      next := next + [h(nodes[2 * i], nodes[2 * i + 1])];
    }
  }

  // ------------------------------------------------------------------ binding

  datatype Collision<H> = Collision(a: H, b: H, c: H, d: H)

  ghost predicate Collides<H>(x: Collision<H>, h: (H, H) -> H) {
    (x.a != x.c || x.b != x.d) && h(x.a, x.b) == h(x.c, x.d)
  }

  // The two subtrees of a tree.
  function Left<H>(leaves: seq<H>, k: nat): (part: seq<H>)
    requires k > 0 && 0 < |leaves| <= Pow2(k)
    ensures 0 < |part| <= Pow2(k - 1)
  {
    if |leaves| <= Pow2(k - 1) then leaves else leaves[..Pow2(k - 1)]
  }

  function Right<H>(leaves: seq<H>, k: nat): (part: seq<H>)
    requires k > 0 && 0 < |leaves| <= Pow2(k)
    ensures 0 < |part| <= Pow2(k - 1)
  {
    if |leaves| <= Pow2(k - 1) then leaves else leaves[Pow2(k - 1)..]
  }

  lemma TreeSplits<H>(leaves: seq<H>, k: nat, h: (H, H) -> H)
    requires k > 0 && 0 < |leaves| <= Pow2(k)
    ensures Tree(leaves, k, h) == h(Tree(Left(leaves, k), k - 1, h), Tree(Right(leaves, k), k - 1, h))
  {
  }

  lemma PartsDetermine<H>(s: seq<H>, t: seq<H>, k: nat)
    requires k > 0 && 0 < |s| == |t| <= Pow2(k)
    ensures |Left(s, k)| == |Left(t, k)| && |Right(s, k)| == |Right(t, k)|
    ensures Left(s, k) == Left(t, k) && Right(s, k) == Right(t, k) ==> s == t
  {
    hide Pow2;
    var half := Pow2(k - 1);
    if |s| > half {
      assert s == s[..half] + s[half..] && t == t[..half] + t[half..];
    }
  }

  lemma LeafIsTree<H>(s: seq<H>, t: seq<H>, h: (H, H) -> H)
    requires 0 < |s| == |t| <= Pow2(0)
    ensures Tree(s, 0, h) == Tree(t, 0, h) ==> s == t
  {
    assert Pow2(0) == 1;
    assert s == [s[0]] && t == [t[0]];
  }

  lemma {:induction false} TreeBinds<H>(s: seq<H>, t: seq<H>, k: nat, h: (H, H) -> H) returns (x: Collision<H>)
    requires 0 < |s| == |t| <= Pow2(k)
    requires s != t && Tree(s, k, h) == Tree(t, k, h)
    ensures Collides(x, h)
    decreases k
  {
    hide Tree, Left, Right, Pow2;
    if k == 0 {
      LeafIsTree(s, t, h);
      assert false;
    } else {
      TreeSplits(s, k, h);
      TreeSplits(t, k, h);
      PartsDetermine(s, t, k);
      var a, b := Tree(Left(s, k), k - 1, h), Tree(Right(s, k), k - 1, h);
      var c, d := Tree(Left(t, k), k - 1, h), Tree(Right(t, k), k - 1, h);
      x := Collision(a, b, c, d);
      if a == c && b == d {
        if Left(s, k) != Left(t, k) {
          x := TreeBinds(Left(s, k), Left(t, k), k - 1, h);
        } else {
          x := TreeBinds(Right(s, k), Right(t, k), k - 1, h);
        }
      }
    }
  }

  /** Two different lists of one length with the same root exhibit two
      different pairs with the same hash. */
  lemma RootBinds<H>(s: seq<H>, t: seq<H>, h: (H, H) -> H) returns (x: Collision<H>)
    requires s != [] && |s| == |t|
    requires s != t && Root(s, h) == Root(t, h)
    ensures Collides(x, h)
  {
    x := TreeBinds(s, t, Depth(|s|), h);
  }

  ghost predicate Injective<H(!new)>(h: (H, H) -> H) {
    forall a, b, c, d :: h(a, b) == h(c, d) ==> a == c && b == d
  }

  /** With an injective pair hash the root determines a list of known length. */
  lemma RootDetermines<H(!new)>(s: seq<H>, t: seq<H>, h: (H, H) -> H)
    requires Injective(h) && s != [] && |s| == |t| && Root(s, h) == Root(t, h)
    ensures s == t
  {
    if s != t {
      var x := RootBinds(s, t, h);
      assert false;
    }
  }

  // --------------------------------------------- when the length is not known

  /** What a tree of height `k` hashes: the list brought to 2^k leaves by
      repeating, at every height, the half that is there. */
  function Pad<H>(leaves: seq<H>, k: nat): (padded: seq<H>)
    requires 0 < |leaves| <= Pow2(k)
    ensures |padded| == Pow2(k)
    ensures leaves <= padded
    decreases k
  {
    if k == 0 then leaves
    else
      var half := Pow2(k - 1);
      if |leaves| <= half then
        Pad(leaves, k - 1) + Pad(leaves, k - 1)
      else
        Pad(leaves[..half], k - 1) + Pad(leaves[half..], k - 1)
  }

  lemma {:induction false} PaddingIsHashed<H>(leaves: seq<H>, k: nat, h: (H, H) -> H)
    requires 0 < |leaves| <= Pow2(k)
    ensures Tree(Pad(leaves, k), k, h) == Tree(leaves, k, h)
    decreases k
  {
    if k > 0 {
      var half, whole := Pow2(k - 1), Pad(leaves, k);
      var left, right := Left(leaves, k), Right(leaves, k);
      assert whole[..half] == Pad(left, k - 1) && whole[half..] == Pad(right, k - 1);
      PaddingIsHashed(left, k - 1, h);
      PaddingIsHashed(right, k - 1, h);
    }
  }

  // `d` rounds of pairing.
  function Levels<H>(nodes: seq<H>, d: nat, h: (H, H) -> H): seq<H>
    decreases d
  {
    if d == 0 then nodes else Levels(Level(nodes, h), d - 1, h)
  }

  lemma {:induction false} LevelsKeepTree<H>(nodes: seq<H>, k: nat, d: nat, h: (H, H) -> H)
    requires d <= k && 0 < |nodes| <= Pow2(k)
    ensures 0 < |Levels(nodes, d, h)| <= Pow2(k - d)
    ensures Tree(nodes, k, h) == Tree(Levels(nodes, d, h), k - d, h)
    decreases d
  {
    hide Tree;
    if d > 0 {
      LevelKeepsTree(nodes, k, h);
      LevelsKeepTree(Level(nodes, h), k - 1, d - 1, h);
    }
  }

  // The leaves that decide whether two lists, the second at least as deep as
  // the first, have one root: the deeper list is first paired up to the height
  // of the other.
  ghost predicate SamePadded<H>(s: seq<H>, t: seq<H>, h: (H, H) -> H)
    requires s != [] && t != [] && Depth(|s|) <= Depth(|t|)
  {
    LevelsKeepTree(t, Depth(|t|), Depth(|t|) - Depth(|s|), h);
    Pad(s, Depth(|s|)) == Pad(Levels(t, Depth(|t|) - Depth(|s|), h), Depth(|s|))
  }

  /** Two lists of any lengths share their root when their padded leaves agree;
      when these differ, a shared root exhibits a collision. */
  lemma PaddedRootsBind<H>(s: seq<H>, t: seq<H>, h: (H, H) -> H) returns (x: Collision<H>)
    requires s != [] && t != [] && Depth(|s|) <= Depth(|t|)
    ensures SamePadded(s, t, h) ==> Root(s, h) == Root(t, h)
    ensures Root(s, h) == Root(t, h) ==> SamePadded(s, t, h) || Collides(x, h)
  {
    hide Tree, Pad, Levels;
    var k, d := Depth(|s|), Depth(|t|) - Depth(|s|);
    LevelsKeepTree(t, k + d, d, h);
    var u := Levels(t, d, h);
    PaddingIsHashed(s, k, h);
    PaddingIsHashed(u, k, h);
    x := Collision(s[0], s[0], s[0], s[0]);
    if Root(s, h) == Root(t, h) && Pad(s, k) != Pad(u, k) {
      x := TreeBinds(Pad(s, k), Pad(u, k), k, h);
    }
  }

  /** With an injective pair hash that is exactly when they share it. */
  lemma RootsAgreeIff<H(!new)>(s: seq<H>, t: seq<H>, h: (H, H) -> H)
    requires Injective(h) && s != [] && t != [] && Depth(|s|) <= Depth(|t|)
    ensures Root(s, h) == Root(t, h) <==> SamePadded(s, t, h)
  {
    hide Root, SamePadded, Depth;
    var x := PaddedRootsBind(s, t, h);
  }

  // A leaf hashed with itself `k` times over.
  function SelfHash<H>(x: H, k: nat, h: (H, H) -> H): H {
    if k == 0 then x else var y := SelfHash(x, k - 1, h); h(y, y)
  }

  lemma {:induction false} SelfHashAdds<H>(x: H, j: nat, k: nat, h: (H, H) -> H)
    ensures SelfHash(SelfHash(x, j, h), k, h) == SelfHash(x, j + k, h)
    decreases k
  {
    if k > 0 {
      SelfHashAdds(x, j, k - 1, h);
    }
  }

  function Copies<H>(x: H, n: nat): (copies: seq<H>)
    ensures |copies| == n && forall i :: 0 <= i < n ==> copies[i] == x
  {
    seq(n, i => x)
  }

  lemma {:induction false} CopiesHash<H>(x: H, n: nat, k: nat, h: (H, H) -> H)
    requires 0 < n <= Pow2(k)
    ensures Tree(Copies(x, n), k, h) == SelfHash(x, k, h)
    decreases k
  {
    if k > 0 {
      var half := Pow2(k - 1);
      if n <= half {
        CopiesHash(x, n, k - 1, h);
      } else {
        assert Copies(x, n)[..half] == Copies(x, half) && Copies(x, n)[half..] == Copies(x, n - half);
        CopiesHash(x, half, k - 1, h);
        CopiesHash(x, n - half, k - 1, h);
      }
    }
  }

  // No list of `m` leaves shares its root with another list, of `n` leaves.
  ghost predicate RootTells<H(!new)>(m: nat, n: nat, h: (H, H) -> H)
    requires m > 0 && n > 0
  {
    forall s: seq<H>, t: seq<H> :: |s| == m && |t| == n && Root(s, h) == Root(t, h) ==> s == t
  }

  lemma UnequalLengthsShare<H(!new)>(m: nat, n: nat, x: H, h: (H, H) -> H)
    requires 0 < m && 0 < n && m != n && Depth(m) <= Depth(n)
    ensures !RootTells(m, n, h) && !RootTells(n, m, h)
  {
    hide Tree, Copies, SelfHash, Depth, Pow2;
    var d := Depth(n) - Depth(m);
    var s, t := Copies(SelfHash(x, d, h), m), Copies(x, n);
    CopiesHash(SelfHash(x, d, h), m, Depth(m), h);
    CopiesHash(x, n, Depth(n), h);
    SelfHashAdds(x, d, Depth(m), h);
    assert Root(s, h) == Root(t, h);
  }

  /** The root determines the list exactly when the lengths are known to be the
      same: for any two different lengths some pair of lists shares its root. */
  lemma RootTellsIff<H(!new)>(m: nat, n: nat, x: H, h: (H, H) -> H)
    requires Injective(h) && m > 0 && n > 0
    ensures RootTells(m, n, h) <==> m == n
  {
    hide Root, Depth;
    if m == n {
      forall s: seq<H>, t: seq<H> | |s| == m && |t| == n && Root(s, h) == Root(t, h) ensures s == t {
        RootDetermines(s, t, h);
      }
    } else if Depth(m) <= Depth(n) {
      UnequalLengthsShare(m, n, x, h);
    } else {
      UnequalLengthsShare(n, m, x, h);
    }
  }

  /** One such pair needs no chosen leaf: an odd list longer than one and the
      same list with its last leaf repeated, whatever the hash. */
  lemma RepeatedLeafIsInvisible<H>(s: seq<H>, h: (H, H) -> H)
    requires |s| > 1 && |s| % 2 == 1
    ensures Root(s + [s[|s| - 1]], h) == Root(s, h)
  {
    hide Tree, Level;
    var t := s + [s[|s| - 1]];
    RepeatedLevel(s, h);
    LevelKeepsTree(s, Depth(|s|), h);
    LevelKeepsTree(t, Depth(|t|), h);
    assert Depth(|s|) == Depth(|t|);
  }

  lemma RepeatedLevel<H>(s: seq<H>, h: (H, H) -> H)
    requires |s| > 1 && |s| % 2 == 1
    ensures Level(s + [s[|s| - 1]], h) == Level(s, h)
  {
  }
}

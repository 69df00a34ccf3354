/**
 * The nested-set coordinates of an element (src/base/Element.php) and the pure
 * predicates the element derives from them.
 *
 * Every coordinate is a `nat` in which 0 stands for PHP `null` (unset).
 * Against non-negative integers PHP's loose comparisons and arithmetic treat
 * `null` as 0 (`null == 0`, `null < x` iff `x != 0`, `null > x` is false,
 * `null + 1 == 1`), so for the coordinates a nested set holds the encoding
 * agrees with PHP. Negative coordinates are outside the model: there `null`
 * and 0 part ways (`null < -1` holds in PHP, `0 < -1` does not).
 */
module Structure {

  import opened Wrappers

  datatype Position = Position(root: nat, lft: nat, rgt: nat, level: nat)

  /** `isAncestorOf`: same tree and `b`'s interval strictly inside `a`'s. */
  predicate IsAncestorOf(a: Position, b: Position)
  {
    a.root == b.root && a.lft < b.lft && a.rgt > b.rgt
  }

  /** `isDescendantOf`: same tree and `a`'s interval strictly inside `b`'s. */
  predicate IsDescendantOf(a: Position, b: Position)
  {
    a.root == b.root && a.lft > b.lft && a.rgt < b.rgt
  }

  /** `isParentOf`: an ancestor exactly one level up. */
  predicate IsParentOf(a: Position, b: Position)
  {
    a.root == b.root && a.level as int == b.level as int - 1 && IsAncestorOf(a, b)
  }

  /** `isChildOf`: a descendant exactly one level down. */
  predicate IsChildOf(a: Position, b: Position)
  {
    a.root == b.root && a.level == b.level + 1 && IsDescendantOf(a, b)
  }

  /** `isPrevSiblingOf`: same tree and level, `a` ends right before `b` starts. */
  predicate IsPrevSiblingOf(a: Position, b: Position)
  {
    a.root == b.root && a.level == b.level && a.rgt as int == b.lft as int - 1
  }

  /** `isNextSiblingOf`: same tree and level, `a` starts right after `b` ends. */
  predicate IsNextSiblingOf(a: Position, b: Position)
  {
    a.root == b.root && a.level == b.level && a.lft == b.rgt + 1
  }

  /**
   * `isSiblingOf`. `parent` is what `a.getParent()` yields; the source consults
   * it only when the level and adjacency tests have not already decided.
   */
  function IsSiblingOf(a: Position, b: Position, parent: Option<Position>): (r: bool)
    ensures a.root != b.root || a.level != b.level || a.level == 0 ==> !r
    ensures a.root == b.root && a.level == b.level == 1 ==> r
    ensures a.level != 0 && (IsPrevSiblingOf(a, b) || IsNextSiblingOf(a, b)) ==> r
    ensures a.root == b.root && a.level == b.level > 1
            && !IsPrevSiblingOf(a, b) && !IsNextSiblingOf(a, b)
            ==> (r <==> parent.Some? && IsDescendantOf(b, parent.value))
  {
    if a.root == b.root && a.level != 0 && a.level == b.level then
      if a.level == 1 || IsPrevSiblingOf(a, b) || IsNextSiblingOf(a, b) then true
      else if parent.Some? then IsDescendantOf(b, parent.value)
      else false
    else false
  }

  /** `hasDescendants`: both bounds set and at least one slot between them. */
  predicate HasDescendants(p: Position)
  {
    p.lft != 0 && p.rgt != 0 && p.rgt > p.lft + 1
  }

  /**
   * `getTotalDescendants`. PHP's `/` yields a float when the dividend is odd,
   * so the result is a `real`; it is a whole number on a well-formed tree
   * (see TotalDescendantsWhole).
   */
  function TotalDescendants(p: Position): (r: real)
    ensures HasDescendants(p) ==> r * 2.0 == (p.rgt - p.lft - 1) as real && r > 0.0
    ensures !HasDescendants(p) ==> r == 0.0
  {
    if HasDescendants(p) then (p.rgt - p.lft - 1) as real / 2.0 else 0.0
  }

  /** The three values `getStatus` can return. */
  datatype Status = Enabled | Disabled | Archived

  /** `getStatus`: archived wins, then either disabled flag, else enabled. */
  function GetStatus(archived: bool, enabled: bool, localeEnabled: bool): (s: Status)
    ensures archived <==> s == Archived
    ensures !archived ==> (s == Disabled <==> !enabled || !localeEnabled)
    ensures s == Enabled <==> !archived && enabled && localeEnabled
  {
    if archived then Archived
    else if !enabled || !localeEnabled then Disabled
    else Enabled
  }

  /** The two containment tests are converses; neither relates two trees. */
  lemma AncestorDescendantConverse(a: Position, b: Position)
    ensures IsAncestorOf(a, b) == IsDescendantOf(b, a)
    ensures !IsAncestorOf(a, a) && !IsDescendantOf(a, a)
    ensures a.root != b.root ==> !IsAncestorOf(a, b) && !IsDescendantOf(a, b)
  {
  }

  /** A parent is an ancestor one level up; a child a descendant one level down. */
  lemma ParentChildConverse(a: Position, b: Position)
    ensures IsParentOf(a, b) == IsChildOf(b, a)
    ensures IsParentOf(a, b) ==> IsAncestorOf(a, b) && a.level + 1 == b.level
    ensures IsChildOf(a, b) ==> IsDescendantOf(a, b) && a.level == b.level + 1
    ensures a.root != b.root ==> !IsParentOf(a, b) && !IsChildOf(a, b)
  {
  }

  /** Previous and next sibling are converses; neither relates two trees. */
  lemma PrevNextSiblingConverse(a: Position, b: Position)
    ensures IsPrevSiblingOf(a, b) == IsNextSiblingOf(b, a)
    ensures a.root != b.root ==> !IsPrevSiblingOf(a, b) && !IsNextSiblingOf(a, b)
  {
  }

  /**
   * When the interval holds an even number of inner slots (always so in a
   * well-formed nested set) the count is the whole number (rgt - lft - 1) / 2.
   */
  lemma TotalDescendantsWhole(p: Position)
    requires (p.rgt as int - p.lft as int - 1) % 2 == 0
    ensures TotalDescendants(p) == (if HasDescendants(p) then (p.rgt - p.lft - 1) / 2 else 0) as real
  {
    if HasDescendants(p) {
      var k := (p.rgt - p.lft - 1) / 2;
      assert (p.rgt - p.lft - 1) == 2 * k;
    }
  }

  /**
   * A root with two children, the first of which has one child:
   * R = [1, 10] at level 1, C1 = [2, 5] and C2 = [6, 9] at level 2,
   * G = [3, 4] at level 3, all in tree 1.
   */
  lemma SmallTreeExample()
    ensures var r, c1, c2, g := Position(1, 1, 10, 1), Position(1, 2, 5, 2),
                                Position(1, 6, 9, 2), Position(1, 3, 4, 3);
      && IsAncestorOf(r, c1)
      && !IsNextSiblingOf(c1, c2) && IsPrevSiblingOf(c1, c2)
      && TotalDescendants(r) == 4.0
      && IsChildOf(g, c1) && !IsChildOf(g, r)
      && IsSiblingOf(c1, c2, Some(r))
  {
  }
}

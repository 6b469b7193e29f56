/** The parent/children links of engine/src/core/world.cpp as pure
    functions over the component storages. The World methods are proved
    equal to these; the lemmas here state what each edit does to the links
    and whether it keeps them symmetric. */
module Hierarchy {
  import opened Components

  /** The erase-remove idiom `v.erase(std::remove(v.begin(), v.end(), x), v.end())`:
      every occurrence of x leaves, nothing else does. */
  function Remove(s: seq<Entity>, x: Entity): (r: seq<Entity>)
    ensures multiset(r) == multiset(s)[x := 0]
    ensures x !in r
  {
    if s == [] then []
    else
      var last := s[|s| - 1];
      assert s == s[..|s| - 1] + [last];
      if last == x then Remove(s[..|s| - 1], x) else Remove(s[..|s| - 1], x) + [last]
  }

  /** Remove keeps the order of what remains: it distributes over
      concatenation. */
  lemma {:induction false} RemoveConcat(a: seq<Entity>, b: seq<Entity>, x: Entity)
    ensures Remove(a + b, x) == Remove(a, x) + Remove(b, x)
    decreases |b|
  {
    if b == [] {
      assert a + b == a;
    } else {
      var b' := b[..|b| - 1];
      assert (a + b)[..|a + b| - 1] == a + b';
      RemoveConcat(a, b', x);
    }
  }

  /** One step of Remove over a growing prefix: the next element is kept
      unless it is x. */
  lemma RemoveStep(s: seq<Entity>, i: nat, x: Entity)
    requires i < |s|
    ensures Remove(s[..i + 1], x) == if s[i] == x then Remove(s[..i], x) else Remove(s[..i], x) + [s[i]]
  {
    assert s[..i + 1][..i] == s[..i];
  }

  /** Removing an absent entity leaves the list as it was. */
  lemma {:induction false} RemoveAbsent(s: seq<Entity>, x: Entity)
    requires x !in s
    ensures Remove(s, x) == s
  {
    if s != [] {
      RemoveAbsent(s[..|s| - 1], x);
    }
  }

  /** Every child with a Parent is listed by that parent, exactly once. */
  ghost predicate ParentsListed(s: Components) {
    forall c | c in s.parents :: s.parents[c] in s.children && multiset(s.children[s.parents[c]])[c] == 1
  }

  /** Every listed child has a Parent naming the listing entity. */
  ghost predicate ListedHaveParent(s: Components) {
    forall p, c | p in s.children && c in s.children[p] :: c in s.parents && s.parents[c] == p
  }

  /** Link symmetry: a child's Parent points at p exactly when p's Children
      list holds the child, and then holds it exactly once. */
  ghost predicate Symmetric(s: Components) {
    ParentsListed(s) && ListedHaveParent(s)
  }

  /** getChildren(parent): the Children list, or an empty one. */
  function ChildrenOf(s: Components, parent: Entity): (r: seq<Entity>)
    ensures parent !in s.children ==> r == []
  {
    if parent in s.children then s.children[parent] else []
  }

  // ---- setParent ----

  /** setParent(child, parent): create the Children list lazily, append the
      child unless std::find already sees it, then upsert the child's Parent. */
  function WithParent(s: Components, child: Entity, parent: Entity): (t: Components) {
    var list := ChildrenOf(s, parent);
    var list' := if child in list then list else list + [child];
    s.(children := s.children[parent := list'], parents := s.parents[child := parent])
  }

  lemma SetParentLinks(s: Components, child: Entity, parent: Entity)
    ensures var t := WithParent(s, child, parent);
      && parent in t.children
      && t.parents[child] == parent
      && (multiset(ChildrenOf(s, parent))[child] <= 1 ==> multiset(t.children[parent])[child] == 1)
      && (child !in ChildrenOf(s, parent) ==> t.children[parent] == ChildrenOf(s, parent) + [child])
      && (child in ChildrenOf(s, parent) ==> t.children[parent] == ChildrenOf(s, parent))
  {
  }

  /** setParent touches only the new parent's Children list and the child's
      Parent; in particular it leaves a previous parent's list alone. */
  lemma SetParentFrame(s: Components, child: Entity, parent: Entity)
    ensures var t := WithParent(s, child, parent);
      && t.children - {parent} == s.children - {parent}
      && t.parents - {child} == s.parents - {child}
      && t.(children := s.children, parents := s.parents) == s
  {
  }

  /** Re-parenting a child breaks symmetry: the old parent still lists the
      child, whose Parent now names the new parent. */
  lemma SetParentLeavesStaleLink()
    ensures var s := NoComponents.(parents := map[1 := 2], children := map[2 := [1]]);
      var t := WithParent(s, 1, 3);
      Symmetric(s) && 1 in t.children[2] && t.parents[1] == 3 && !Symmetric(t)
  {
    var s := NoComponents.(parents := map[1 := 2], children := map[2 := [1]]);
    var t := WithParent(s, 1, 3);
    assert t.children[2] == [1];
    assert multiset(s.children[2])[1] == 1;
    assert 2 in t.children && 1 in t.children[2] && t.parents[1] != 2;
  }

  /** On a symmetric state, setParent keeps symmetry exactly when the child
      has no parent or already has this one: re-parenting a child of another
      entity always leaves it listed by its old parent. */
  lemma SetParentSymmetricIff(s: Components, child: Entity, parent: Entity)
    requires Symmetric(s)
    ensures Symmetric(WithParent(s, child, parent)) <==> (child !in s.parents || s.parents[child] == parent)
  {
    if child in s.parents && s.parents[child] != parent {
      var previous := s.parents[child];
      var t := WithParent(s, child, parent);
      assert multiset(s.children[previous])[child] == 1;
      assert child in s.children[previous];
      assert t.children[previous] == s.children[previous];
      assert t.parents[child] == parent;
      assert !ListedHaveParent(t);
    } else {
      SetParentPreservesSymmetry(s, child, parent);
    }
  }

  /** Symmetry survives setParent when the child has no parent yet or
      already has this one. */
  lemma SetParentPreservesSymmetry(s: Components, child: Entity, parent: Entity)
    requires Symmetric(s)
    requires child in s.parents ==> s.parents[child] == parent
    ensures Symmetric(WithParent(s, child, parent))
  {
    if child in s.parents {
      assert multiset(s.children[parent])[child] == 1;
      assert WithParent(s, child, parent) == s;
    } else {
      SetParentOfOrphan(s, child, parent);
    }
  }

  /** The case of a child without a Parent: by symmetry no list holds it,
      so it is appended to the parent's list and nowhere else. */
  lemma SetParentOfOrphan(s: Components, child: Entity, parent: Entity)
    requires Symmetric(s) && child !in s.parents
    ensures Symmetric(WithParent(s, child, parent))
  {
    OrphanParentsListed(s, child, parent);
    OrphanListedHaveParent(s, child, parent);
  }

  lemma OrphanParentsListed(s: Components, child: Entity, parent: Entity)
    requires Symmetric(s) && child !in s.parents
    ensures ParentsListed(WithParent(s, child, parent))
  {
    var t := WithParent(s, child, parent);
    var list: seq<Entity> := ChildrenOf(s, parent);
    assert child !in list;
    assert t.children[parent] == list + [child];
    assert multiset(t.children[parent]) == multiset(list) + multiset{child};
    forall c | c in t.parents
      ensures t.parents[c] in t.children && multiset(t.children[t.parents[c]])[c] == 1
    {
      if c != child {
        var p := s.parents[c];
        assert multiset(s.children[p])[c] == 1;
      }
    }
  }

  lemma OrphanListedHaveParent(s: Components, child: Entity, parent: Entity)
    requires Symmetric(s) && child !in s.parents
    ensures ListedHaveParent(WithParent(s, child, parent))
  {
    var t := WithParent(s, child, parent);
    var list: seq<Entity> := ChildrenOf(s, parent);
    assert child !in list;
    assert t.children[parent] == list + [child];
    forall q, c | q in t.children && c in t.children[q]
      ensures c in t.parents && t.parents[c] == q
    {
      if q == parent && c != child {
        assert c in list;
      }
    }
  }

  // ---- removeParent ----

  /** removeParent(child): no-op without a Parent; otherwise erase the child
      from the old parent's list (if that parent has one) and drop Parent. */
  function WithoutParent(s: Components, child: Entity): (t: Components) {
    if child !in s.parents then s
    else
      var p := s.parents[child];
      var children' := if p in s.children then s.children[p := Remove(s.children[p], child)] else s.children;
      s.(children := children', parents := s.parents - {child})
  }

  lemma RemoveParentEffect(s: Components, child: Entity)
    ensures child !in s.parents ==> WithoutParent(s, child) == s
    ensures child in s.parents ==>
      var p := s.parents[child];
      var t := WithoutParent(s, child);
      && child !in t.parents
      && t.parents == s.parents - {child}
      && (p in s.children ==> t.children[p] == Remove(s.children[p], child))
      && (p in s.children ==> child !in t.children[p])
      && (p in s.children ==> multiset(t.children[p]) == multiset(s.children[p])[child := 0])
      && t.children - {p} == s.children - {p}
      && t.(children := s.children, parents := s.parents) == s
  {
  }

  lemma RemoveParentPreservesSymmetry(s: Components, child: Entity)
    requires Symmetric(s)
    ensures Symmetric(WithoutParent(s, child))
  {
    if child in s.parents {
      RemoveParentKeepsListed(s, child);
      RemoveParentKeepsParents(s, child);
    }
  }

  lemma RemoveParentKeepsListed(s: Components, child: Entity)
    requires Symmetric(s) && child in s.parents
    ensures ParentsListed(WithoutParent(s, child))
  {
    var t := WithoutParent(s, child);
    var p := s.parents[child];
    assert p in s.children;
    assert multiset(t.children[p]) == multiset(s.children[p])[child := 0];
    forall c | c in t.parents
      ensures t.parents[c] in t.children && multiset(t.children[t.parents[c]])[c] == 1
    {
      assert multiset(s.children[s.parents[c]])[c] == 1;
    }
  }

  lemma RemoveParentKeepsParents(s: Components, child: Entity)
    requires Symmetric(s) && child in s.parents
    ensures ListedHaveParent(WithoutParent(s, child))
  {
    var t := WithoutParent(s, child);
    var p := s.parents[child];
    forall q, c | q in t.children && c in t.children[q]
      ensures c in t.parents && t.parents[c] == q
    {
      if q == p {
        assert multiset(t.children[p]) == multiset(s.children[p])[child := 0];
        assert c in multiset(t.children[p]);
        assert c in s.children[p];
      }
    }
  }

  // ---- removeChild ----

  /** removeChild(parent, child): no-op without a Children list; otherwise
      erase the child from it, and drop the child's Parent only if it names
      this parent. */
  function WithoutChild(s: Components, parent: Entity, child: Entity): (t: Components) {
    if parent !in s.children then s
    else
      var parents' := if child in s.parents && s.parents[child] == parent then s.parents - {child} else s.parents;
      s.(children := s.children[parent := Remove(s.children[parent], child)], parents := parents')
  }

  lemma RemoveChildEffect(s: Components, parent: Entity, child: Entity)
    ensures parent !in s.children ==> WithoutChild(s, parent, child) == s
    ensures parent in s.children ==>
      var t := WithoutChild(s, parent, child);
      && t.children[parent] == Remove(s.children[parent], child)
      && child !in t.children[parent]
      && t.children - {parent} == s.children - {parent}
      && (child in t.parents <==> child in s.parents && s.parents[child] != parent)
      && t.parents - {child} == s.parents - {child}
      && t.(children := s.children, parents := s.parents) == s
  {
  }

  lemma RemoveChildPreservesSymmetry(s: Components, parent: Entity, child: Entity)
    requires Symmetric(s)
    ensures Symmetric(WithoutChild(s, parent, child))
  {
    if parent in s.children {
      RemoveChildKeepsListed(s, parent, child);
      RemoveChildKeepsParents(s, parent, child);
    }
  }

  lemma RemoveChildKeepsListed(s: Components, parent: Entity, child: Entity)
    requires Symmetric(s) && parent in s.children
    ensures ParentsListed(WithoutChild(s, parent, child))
  {
    var t := WithoutChild(s, parent, child);
    assert multiset(t.children[parent]) == multiset(s.children[parent])[child := 0];
    forall c | c in t.parents
      ensures t.parents[c] in t.children && multiset(t.children[t.parents[c]])[c] == 1
    {
      if t.parents[c] == parent {
        assert multiset(t.children[parent])[c] == multiset(s.children[parent])[c];
      }
    }
  }

  lemma RemoveChildKeepsParents(s: Components, parent: Entity, child: Entity)
    requires Symmetric(s) && parent in s.children
    ensures ListedHaveParent(WithoutChild(s, parent, child))
  {
    var t := WithoutChild(s, parent, child);
    assert multiset(t.children[parent]) == multiset(s.children[parent])[child := 0];
    forall q, c | q in t.children && c in t.children[q]
      ensures c in t.parents && t.parents[c] == q
    {
      if q == parent {
        assert c in multiset(t.children[parent]);
        assert c in s.children[parent] && c != child;
      } else {
        assert c in s.children[q] && s.parents[c] == q;
      }
    }
  }

  // ---- removeAllChildren ----

  /** removeAllChildren(parent): drop the Parent of every listed child,
      whatever it names, then clear the list. */
  function WithoutChildren(s: Components, parent: Entity): (t: Components) {
    if parent !in s.children then s
    else
      var list := s.children[parent];
      s.(children := s.children[parent := []], parents := s.parents - set c | c in list)
  }

  lemma RemoveAllChildrenEffect(s: Components, parent: Entity)
    ensures parent !in s.children ==> WithoutChildren(s, parent) == s
    ensures parent in s.children ==>
      var t := WithoutChildren(s, parent);
      && ChildrenOf(t, parent) == []
      && (forall c :: c in s.children[parent] ==> c !in t.parents)
      && (forall c :: c in s.parents && c !in s.children[parent] ==> c in t.parents && t.parents[c] == s.parents[c])
      && t.children - {parent} == s.children - {parent}
      && t.(children := s.children, parents := s.parents) == s
  {
  }

  /** A listed child loses its Parent even when that Parent names another
      entity (possible only once symmetry is already broken). */
  lemma RemoveAllChildrenStripsForeignParent()
    ensures var s := NoComponents.(parents := map[1 := 3], children := map[2 := [1], 3 := [1]]);
      var t := WithoutChildren(s, 2);
      s.parents[1] == 3 && 1 !in t.parents && 1 in t.children[3]
  {
  }

  lemma RemoveAllChildrenPreservesSymmetry(s: Components, parent: Entity)
    requires Symmetric(s)
    ensures Symmetric(WithoutChildren(s, parent))
  {
    if parent in s.children {
      RemoveAllChildrenKeepsListed(s, parent);
      RemoveAllChildrenKeepsParents(s, parent);
    }
  }

  lemma RemoveAllChildrenKeepsListed(s: Components, parent: Entity)
    requires Symmetric(s) && parent in s.children
    ensures ParentsListed(WithoutChildren(s, parent))
  {
    var t := WithoutChildren(s, parent);
    var list := s.children[parent];
    forall c | c in t.parents
      ensures t.parents[c] in t.children && multiset(t.children[t.parents[c]])[c] == 1
    {
      var q := s.parents[c];
      assert multiset(s.children[q])[c] == 1;
      assert c in s.children[q] && c !in list;
      assert q != parent;
    }
  }

  lemma RemoveAllChildrenKeepsParents(s: Components, parent: Entity)
    requires Symmetric(s) && parent in s.children
    ensures ListedHaveParent(WithoutChildren(s, parent))
  {
    var t := WithoutChildren(s, parent);
    forall q, c | q in t.children && c in t.children[q]
      ensures c in t.parents && t.parents[c] == q
    {
      assert q != parent;
      assert s.parents[c] == q;
    }
  }

  // ---- setParent followed by removeParent ----

  /** After setParent(child, parent), getChildren(parent) holds the child
      exactly once (when it held it at most once); after removeParent(child)
      it holds it zero times. */
  lemma SetThenRemoveParent(s: Components, child: Entity, parent: Entity)
    requires multiset(ChildrenOf(s, parent))[child] <= 1
    ensures multiset(ChildrenOf(WithParent(s, child, parent), parent))[child] == 1
    ensures child !in ChildrenOf(WithoutParent(WithParent(s, child, parent), child), parent)
  {
    SetParentLinks(s, child, parent);
  }
}

/** A project's item containers: the unsorted pool and its categories. The
    updaters name a container by `string | null`: null is the pool, a string
    the first category with that id (`project.categories.find(c => c.id === id)`).
    This module reads and replaces one container's item list, collects every
    item of a project, and states the application's central invariant: ids are
    unique, so every item sits in exactly one container. */
module Containers {
  import opened Types
  import opened Seqs

  /** The items of the categories, concatenated in category order: what
      clearProject pushes onto the pool (src/App.tsx:136-138). */
  function Flatten(cs: seq<Category>): seq<Item>
  {
    if cs == [] then [] else cs[0].items + Flatten(cs[1..])
  }

  /** Flatten distributes over concatenation of category lists. */
  lemma {:induction false} FlattenAppend(a: seq<Category>, b: seq<Category>)
    ensures Flatten(a + b) == Flatten(a) + Flatten(b)
  {
    if a == [] {
      assert a + b == b;
    } else {
      assert (a + b)[0] == a[0];
      assert (a + b)[1..] == a[1..] + b;
      FlattenAppend(a[1..], b);
    }
  }

  /** Replacing category j changes the collected items only at j's place. */
  lemma FlattenUpdate(cs: seq<Category>, j: nat, c: Category)
    requires j < |cs|
    ensures Flatten(cs[j := c]) == Flatten(cs[..j]) + c.items + Flatten(cs[j + 1..])
    ensures Flatten(cs) == Flatten(cs[..j]) + cs[j].items + Flatten(cs[j + 1..])
  {
    assert cs == cs[..j] + [cs[j]] + cs[j + 1..];
    assert cs[j := c] == cs[..j] + [c] + cs[j + 1..];
    FlattenAppend(cs[..j] + [cs[j]], cs[j + 1..]);
    FlattenAppend(cs[..j], [cs[j]]);
    FlattenAppend(cs[..j] + [c], cs[j + 1..]);
    FlattenAppend(cs[..j], [c]);
  }

  /** Every item of a project: the pool, then each category's items. */
  function AllItems(p: Project): seq<Item>
  {
    p.items + Flatten(p.categories)
  }

  /** The item list of a container, or None when no category has that id. */
  function ItemsIn(p: Project, container: Option<Id>): Option<seq<Item>>
  {
    match container
    case None => Some(p.items)
    case Some(id) =>
      match IndexOf(p.categories, CategoryKey, id)
      case None => None
      case Some(j) => Some(p.categories[j].items)
  }

  /** Replaces the item list of an existing container; nothing else changes. */
  function WithItems(p: Project, container: Option<Id>, xs: seq<Item>): (r: Project)
    requires ItemsIn(p, container).Some?
    ensures ItemsIn(r, container) == Some(xs)
    ensures forall c | c != container :: ItemsIn(r, c) == ItemsIn(p, c)
    ensures r.(items := p.items, categories := p.categories) == p
    ensures |r.categories| == |p.categories|
    ensures forall k | 0 <= k < |p.categories| :: r.categories[k].(items := p.categories[k].items) == p.categories[k]
    ensures forall k | 0 <= k < |p.categories| && r.categories[k] != p.categories[k] ::
              container.Some? && IndexOf(p.categories, CategoryKey, container.value) == Some(k)
    ensures Keys(r.categories, CategoryKey) == Keys(p.categories, CategoryKey)
    ensures multiset(AllItems(r)) == multiset(AllItems(p)) - multiset(ItemsIn(p, container).value) + multiset(xs)
  {
    match container
    case None => p.(items := xs)
    case Some(id) =>
      var j := IndexOf(p.categories, CategoryKey, id).value;
      var cs := p.categories[j := p.categories[j].(items := xs)];
      var r := p.(categories := cs);
      assert Keys(cs, CategoryKey) == Keys(p.categories, CategoryKey);
      IndexOfKeys(cs, CategoryKey, p.categories, CategoryKey, id);
      forall c | c != container ensures ItemsIn(r, c) == ItemsIn(p, c) {
        if c.Some? {
          IndexOfKeys(cs, CategoryKey, p.categories, CategoryKey, c.value);
        }
      }
      FlattenUpdate(p.categories, j, cs[j]);
      r
  }

  /** A container's items are among the project's items. */
  lemma ContainerInProject(p: Project, c: Option<Id>)
    requires ItemsIn(p, c).Some?
    ensures multiset(ItemsIn(p, c).value) <= multiset(AllItems(p))
  {
    if c.Some? {
      var j := IndexOf(p.categories, CategoryKey, c.value).value;
      FlattenUpdate(p.categories, j, p.categories[j]);
    }
  }

  /** Splicing one item out of a container takes exactly that item out of
      the project's multiset of items. */
  lemma SpliceOut(p: Project, fromId: Option<Id>, k: nat)
    requires ItemsIn(p, fromId).Some? && k < |ItemsIn(p, fromId).value|
    ensures var xs := ItemsIn(p, fromId).value;
            multiset(AllItems(WithItems(p, fromId, xs[..k] + xs[k + 1..])))
              == multiset(AllItems(p)) - multiset{xs[k]}
  {
    var xs := ItemsIn(p, fromId).value;
    var rest := xs[..k] + xs[k + 1..];
    assert xs == xs[..k] + [xs[k]] + xs[k + 1..];
    ContainerInProject(p, fromId);
    SwapOut(multiset(AllItems(p)), multiset(xs), multiset(rest), xs[k]);
  }

  /** Replacing a part `mx` of a bag by `mx` without `x` takes `x` out of
      the bag. */
  lemma SwapOut(m: multiset<Item>, mx: multiset<Item>, mr: multiset<Item>, x: Item)
    requires mx == mr + multiset{x} && mx <= m
    ensures m - mx + mr == m - multiset{x}
  {
  }

  /** Giving a container back its own items changes nothing. */
  lemma WithSameItems(p: Project, c: Option<Id>)
    requires ItemsIn(p, c).Some?
    ensures WithItems(p, c, ItemsIn(p, c).value) == p
  {
    if c.Some? {
      var j := IndexOf(p.categories, CategoryKey, c.value).value;
      assert p.categories[j := p.categories[j].(items := p.categories[j].items)] == p.categories;
    }
  }

  /** The application's central invariant for one project: category ids are
      unique, and item ids are unique across the pool and all categories, so
      each item is in exactly one container. */
  ghost predicate ProjectWellFormed(p: Project)
  {
    && Unique(Keys(p.categories, CategoryKey))
    && Unique(Keys(AllItems(p), ItemKey))
  }

  /** Project ids are unique and every project is well formed. */
  ghost predicate WellFormed(s: AppState)
  {
    && Unique(Keys(s.projects, ProjectKey))
    && forall k | 0 <= k < |s.projects| :: ProjectWellFormed(s.projects[k])
  }

  /** `id` is used by no project, category or item: what a fresh
      `crypto.randomUUID()` is taken to be. */
  ghost predicate Unused(s: AppState, id: Id)
  {
    forall p | p in s.projects ::
      && p.id != id
      && (forall c | c in p.categories :: c.id != id)
      && (forall x | x in AllItems(p) :: x.id != id)
  }
}

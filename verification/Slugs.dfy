/**
 The page slugs of scripts/build_pages.py: the lowest id of a base slug keeps it, every other
 page of that base gets the base, a dash and its id. `base` is slugify of the external key.
 */
module Slugs {
  import opened Grouping

  datatype Page = Page(id: nat, base: string)

  function Digit(n: nat): char
    requires n < 10
  {
    "0123456789"[n]
  }

  /** str of a non-negative integer. */
  function Digits(n: nat): (s: string)
    ensures s != "" && '-' !in s
  {
    if n < 10 then [Digit(n)] else Digits(n / 10) + [Digit(n % 10)]
  }

  function Suffixed(base: string, id: nat): string {
    base + "-" + Digits(id)
  }

  ghost predicate UniqueIds(pages: seq<Page>) {
    forall i, j | 0 <= i < j < |pages| :: pages[i].id != pages[j].id
  }

  /** No page of the same base has a lower id. */
  ghost predicate Lowest(pages: seq<Page>, p: Page) {
    forall q | q in pages && q.base == p.base :: p.id <= q.id
  }

  ghost function SlugFor(pages: seq<Page>, p: Page): string {
    if Lowest(pages, p) then p.base else Suffixed(p.base, p.id)
  }

  function ByBase(pages: seq<Page>): seq<Group<string, nat>> {
    if pages == [] then []
    else
      var n := |pages| - 1;
      Add(ByBase(pages[..n]), pages[n].base, pages[n].id)
  }

  predicate Ascending(ids: seq<nat>) {
    forall i, j | 0 <= i < j < |ids| :: ids[i] < ids[j]
  }

  predicate Distinct(ids: seq<nat>) {
    forall i, j | 0 <= i < j < |ids| :: ids[i] != ids[j]
  }

  function Insert(id: nat, ids: seq<nat>): (r: seq<nat>)
    ensures |r| == |ids| + 1 && forall k :: k in r <==> k in ids || k == id
  {
    if ids == [] || id <= ids[0] then [id] + ids else [ids[0]] + Insert(id, ids[1..])
  }

  function Sort(ids: seq<nat>): (r: seq<nat>)
    ensures |r| == |ids| && forall k :: k in r <==> k in ids
  {
    if ids == [] then [] else Insert(ids[0], Sort(ids[1..]))
  }

  lemma {:induction false} InsertAscends(id: nat, ids: seq<nat>)
    requires Ascending(ids) && id !in ids
    ensures Ascending(Insert(id, ids))
  {
    if ids != [] && id > ids[0] {
      InsertAscends(id, ids[1..]);
      var rest := Insert(id, ids[1..]);
      assert forall j | 0 <= j < |rest| :: rest[j] in rest;
    }
  }

  lemma {:induction false} SortAscends(ids: seq<nat>)
    requires Distinct(ids)
    ensures Ascending(Sort(ids))
  {
    if ids != [] {
      SortAscends(ids[1..]);
      InsertAscends(ids[0], Sort(ids[1..]));
    }
  }

  predicate LowestOf(ids: seq<nat>, id: nat) {
    forall k | k in ids :: id <= k
  }

  /** The two loops of build that turn base slugs into page slugs. */
  method AssignSlugs(pages: seq<Page>) returns (slugs: map<nat, string>)
    requires UniqueIds(pages)
    ensures slugs.Keys == set p | p in pages :: p.id
    ensures forall p | p in pages :: slugs[p.id] == SlugFor(pages, p)
  {
    var groups: seq<Group<string, nat>> := [];
    for i := 0 to |pages|
      invariant groups == ByBase(pages[..i])
    {
      assert pages[..i + 1][..i] == pages[..i];
      groups := Add(groups, pages[i].base, pages[i].id);
    }
    assert pages[..|pages|] == pages;
    ItemsDistinct(pages);
    GroupsApart(pages);
    slugs := AssignGroups(groups);
    SlugsOfGroups(pages, slugs);
  }

  lemma SlugsOfGroups(pages: seq<Page>, slugs: map<nat, string>)
    requires forall id :: id in slugs <==> exists g :: g in ByBase(pages) && id in g.items
    requires forall g, id | g in ByBase(pages) && id in g.items :: slugs[id] == SlugIn(g, id)
    ensures slugs.Keys == set p | p in pages :: p.id
    ensures forall p | p in pages :: slugs[p.id] == SlugFor(pages, p)
  {
    var groups := ByBase(pages);
    hide ByBase, Lowest, LowestOf, Suffixed;
    forall p | p in pages ensures p.id in slugs && slugs[p.id] == SlugFor(pages, p) {
      BaseHas(pages, p.base, p.id);
      assert p == Page(p.id, p.base);
      var g :| g in groups && g.key == p.base && p.id in g.items;
      SameLowest(pages, g, p);
    }
    forall id | id in slugs ensures exists p :: p in pages && p.id == id {
      var g :| g in groups && id in g.items;
      GroupIs(pages, g, id);
      assert Page(id, g.key).id == id;
    }
  }

  function SlugIn(g: Group<string, nat>, id: nat): string {
    if LowestOf(g.items, id) then g.key else Suffixed(g.key, id)
  }

  ghost predicate Apart(groups: seq<Group<string, nat>>) {
    forall i, j, id | 0 <= i < j < |groups| && id in groups[i].items :: id !in groups[j].items
  }

  method AssignGroups(groups: seq<Group<string, nat>>) returns (slugs: map<nat, string>)
    requires Apart(groups) && forall g | g in groups :: Distinct(g.items)
    ensures forall id :: id in slugs <==> exists g :: g in groups && id in g.items
    ensures forall g, id | g in groups && id in g.items :: slugs[id] == SlugIn(g, id)
  {
    hide SlugIn, Distinct, Assigned, Apart;
    slugs := map[];
    NoneAssigned(groups);
    for i := 0 to |groups|
      invariant Assigned(groups, i, slugs)
    {
      ghost var before := slugs;
      slugs := AssignGroup(groups[i], slugs);
      AssignedNext(groups, i, before, slugs);
    }
    AllAssigned(groups, slugs);
  }

  /** The first n groups have their slugs, and no other page has one. */
  ghost predicate Assigned(groups: seq<Group<string, nat>>, n: nat, slugs: map<nat, string>)
    requires n <= |groups|
  {
    && (forall id | id in slugs :: exists j :: 0 <= j < n && id in groups[j].items)
    && forall j | 0 <= j < n :: GroupAssigned(groups[j], slugs)
  }

  ghost predicate GroupAssigned(g: Group<string, nat>, slugs: map<nat, string>) {
    forall id | id in g.items :: id in slugs && slugs[id] == SlugIn(g, id)
  }

  lemma NoneAssigned(groups: seq<Group<string, nat>>)
    ensures Assigned(groups, 0, map[])
  {
  }

  lemma AssignedNext(groups: seq<Group<string, nat>>, n: nat, before: map<nat, string>, slugs: map<nat, string>)
    requires n < |groups| && Apart(groups) && Assigned(groups, n, before)
    requires forall id :: id in slugs <==> id in before || id in groups[n].items
    requires forall id | id in slugs :: slugs[id] == if id in groups[n].items then SlugIn(groups[n], id) else before[id]
    ensures Assigned(groups, n + 1, slugs)
  {
    hide SlugIn;
    forall j | 0 <= j < n + 1 ensures GroupAssigned(groups[j], slugs) {
      assert j < n ==> GroupAssigned(groups[j], before);
    }
  }

  lemma AllAssigned(groups: seq<Group<string, nat>>, slugs: map<nat, string>)
    requires Assigned(groups, |groups|, slugs)
    ensures forall id :: id in slugs <==> exists g :: g in groups && id in g.items
    ensures forall g, id | g in groups && id in g.items :: slugs[id] == SlugIn(g, id)
  {
    hide SlugIn;
    forall g, id | g in groups && id in g.items ensures id in slugs && slugs[id] == SlugIn(g, id) {
      var j :| 0 <= j < |groups| && groups[j] == g;
      assert GroupAssigned(groups[j], slugs);
    }
    forall id | id in slugs ensures exists g :: g in groups && id in g.items {
      var j :| 0 <= j < |groups| && id in groups[j].items;
      assert groups[j] in groups;
    }
  }

  method AssignGroup(g: Group<string, nat>, slugs0: map<nat, string>) returns (slugs: map<nat, string>)
    requires Distinct(g.items)
    ensures forall id :: id in slugs <==> id in slugs0 || id in g.items
    ensures forall id | id in slugs :: slugs[id] == if id in g.items then SlugIn(g, id) else slugs0[id]
  {
    hide SlugIn, Suffixed, Sort, Distinct;
    slugs := slugs0;
    var ids := Sort(g.items);
    SortAscends(g.items);
    SlugAt(g, ids);
    for pos := 0 to |ids|
      invariant forall id :: id in slugs <==> id in slugs0 || id in ids[..pos]
      invariant forall id | id in slugs :: slugs[id] == if id in ids[..pos] then SlugIn(g, id) else slugs0[id]
    {
      assert ids[..pos + 1] == ids[..pos] + [ids[pos]];
      slugs := slugs[ids[pos] := if pos == 0 then g.key else Suffixed(g.key, ids[pos])];
    }
    assert ids[..|ids|] == ids;
  }

  /** The first of the sorted ids is the lowest. */
  lemma SlugAt(g: Group<string, nat>, ids: seq<nat>)
    requires Ascending(ids) && forall id :: id in ids <==> id in g.items
    ensures forall k | 0 <= k < |ids| :: SlugIn(g, ids[k]) == if k == 0 then g.key else Suffixed(g.key, ids[k])
  {
    hide Suffixed;
    forall k | 0 <= k < |ids| ensures LowestOf(g.items, ids[k]) <==> k == 0 {
      assert ids[0] in g.items;
      if k == 0 {
        forall other | other in g.items ensures ids[0] <= other {
          var m :| 0 <= m < |ids| && ids[m] == other;
        }
      }
    }
  }

  // ------------------------------------------------------------- the groups of a page list

  lemma {:induction false} BaseHas(pages: seq<Page>, base: string, id: nat)
    ensures OnePerKey(ByBase(pages))
    ensures Has(ByBase(pages), base, id) <==> Page(id, base) in pages
  {
    if pages != [] {
      var n := |pages| - 1;
      BaseHas(pages[..n], base, id);
      AddDistinct(ByBase(pages[..n]), pages[n].base, pages[n].id);
      AddAdds(ByBase(pages[..n]), pages[n].base, pages[n].id, base, id);
      assert pages == pages[..n] + [pages[n]];
    }
  }

  /** A group holds the ids of the pages of its base. */
  lemma GroupIs(pages: seq<Page>, g: Group<string, nat>, id: nat)
    requires g in ByBase(pages)
    ensures id in g.items <==> Page(id, g.key) in pages
  {
    var groups := ByBase(pages);
    BaseHas(pages, g.key, id);
    if Page(id, g.key) in pages {
      var h :| h in groups && h.key == g.key && id in h.items;
      SameGroup(groups, g, h);
    }
  }

  lemma SamePage(pages: seq<Page>, p: Page, q: Page)
    requires UniqueIds(pages) && p in pages && q in pages && p.id == q.id
    ensures p == q
  {
    var i :| 0 <= i < |pages| && pages[i] == p;
    var j :| 0 <= j < |pages| && pages[j] == q;
    assert i == j;
  }

  lemma IdsApart(pages: seq<Page>, g: Group<string, nat>, h: Group<string, nat>, id: nat)
    requires UniqueIds(pages) && g in ByBase(pages) && h in ByBase(pages) && id in g.items && id in h.items
    ensures g == h
  {
    GroupIs(pages, g, id);
    GroupIs(pages, h, id);
    BaseHas(pages, g.key, id);
    SamePage(pages, Page(id, g.key), Page(id, h.key));
    SameGroup(ByBase(pages), g, h);
  }

  lemma {:induction false} AddKeepsDistinct(groups: seq<Group<string, nat>>, base: string, id: nat)
    requires (forall g | g in groups :: Distinct(g.items)) && forall g | g in groups :: id !in g.items
    ensures forall g | g in Add(groups, base, id) :: Distinct(g.items)
  {
    if groups != [] && groups[0].key != base {
      AddKeepsDistinct(groups[1..], base, id);
    }
  }

  lemma {:induction false} ItemsDistinct(pages: seq<Page>)
    requires UniqueIds(pages)
    ensures forall g | g in ByBase(pages) :: Distinct(g.items)
  {
    if pages != [] {
      var n := |pages| - 1;
      ItemsDistinct(pages[..n]);
      forall g | g in ByBase(pages[..n]) ensures pages[n].id !in g.items {
        GroupIs(pages[..n], g, pages[n].id);
      }
      AddKeepsDistinct(ByBase(pages[..n]), pages[n].base, pages[n].id);
    }
  }

  lemma GroupsApart(pages: seq<Page>)
    requires UniqueIds(pages)
    ensures Apart(ByBase(pages))
  {
    var groups := ByBase(pages);
    BaseHas(pages, "", 0);
    hide ByBase;
    forall i, j, id | 0 <= i < j < |groups| && id in groups[i].items ensures id !in groups[j].items {
      assert groups[i].key != groups[j].key;
      if id in groups[j].items {
        IdsApart(pages, groups[i], groups[j], id);
      }
    }
  }

  lemma SameLowest(pages: seq<Page>, g: Group<string, nat>, p: Page)
    requires g in ByBase(pages) && g.key == p.base
    ensures LowestOf(g.items, p.id) <==> Lowest(pages, p)
  {
    forall id: nat ensures id in g.items <==> Page(id, g.key) in pages {
      GroupIs(pages, g, id);
    }
    if Lowest(pages, p) {
      forall k | k in g.items ensures p.id <= k {
        assert Page(k, g.key) in pages;
      }
    }
    if LowestOf(g.items, p.id) {
      forall q | q in pages && q.base == p.base ensures p.id <= q.id {
        assert q == Page(q.id, g.key);
      }
    }
  }

  // ------------------------------------------------------------- when slugs collide

  lemma {:induction false} DigitsInjective(m: nat, n: nat)
    requires Digits(m) == Digits(n)
    ensures m == n
  {
    if m < 10 && n < 10 {
      assert Digit(m) == Digits(m)[0] == Digits(n)[0] == Digit(n);
    } else {
      LongDigits(m);
      LongDigits(n);
      assert m >= 10 && n >= 10;
      var a, b := Digits(m), Digits(n);
      assert a[|a| - 1] == Digit(m % 10) && b[|b| - 1] == Digit(n % 10);
      assert a[..|a| - 1] == Digits(m / 10) && b[..|b| - 1] == Digits(n / 10);
      DigitsInjective(m / 10, n / 10);
    }
  }

  lemma LongDigits(n: nat)
    ensures |Digits(n)| > 1 <==> n >= 10
  {
  }

  lemma LastDash(a: string, x: string, b: string, y: string)
    requires a + "-" + x == b + "-" + y
    ensures '-' !in x ==> |b| <= |a|
  {
    var s := a + "-" + x;
    assert s[|b|] == (b + "-" + y)[|b|] == '-';
    if |a| < |b| {
      assert x[|b| - |a| - 1] == s[|b|];
    }
  }

  /** The text after the last dash of a suffixed slug is the id. */
  lemma SuffixedInjective(a: string, m: nat, b: string, n: nat)
    requires Suffixed(a, m) == Suffixed(b, n)
    ensures m == n
  {
    var s, x, y := Suffixed(a, m), Digits(m), Digits(n);
    LastDash(a, x, b, y);
    LastDash(b, y, a, x);
    assert s[|a| + 1..] == x && s[|b| + 1..] == y;
    DigitsInjective(m, n);
  }

  ghost predicate AllDistinct(pages: seq<Page>) {
    forall p, q | p in pages && q in pages && SlugFor(pages, p) == SlugFor(pages, q) :: p == q
  }

  /** Some base slug is another base slug, a dash and the id of a page that had to give way. */
  ghost predicate Clash(pages: seq<Page>) {
    exists p, q :: p in pages && q in pages && !Lowest(pages, p) && q.base == Suffixed(p.base, p.id)
  }

  lemma {:induction false} LowestExists(pages: seq<Page>, q: Page)
    requires q in pages
    ensures exists r :: r in pages && r.base == q.base && Lowest(pages, r)
    decreases q.id
  {
    if !Lowest(pages, q) {
      var r :| r in pages && r.base == q.base && r.id < q.id;
      LowestExists(pages, r);
    }
  }

  /** All published pages get different slugs exactly when no base slug is the suffixed slug of
      a page that shares its own base with a lower id. */
  lemma SlugsDistinctIff(pages: seq<Page>)
    requires UniqueIds(pages)
    ensures AllDistinct(pages) <==> !Clash(pages)
  {
    hide Digits;
    if Clash(pages) {
      var p, q :| p in pages && q in pages && !Lowest(pages, p) && q.base == Suffixed(p.base, p.id);
      LowestExists(pages, q);
      var r :| r in pages && r.base == q.base && Lowest(pages, r);
      assert SlugFor(pages, r) == SlugFor(pages, p);
      assert |r.base| > |p.base|;
    } else {
      forall p, q | p in pages && q in pages && SlugFor(pages, p) == SlugFor(pages, q) ensures p == q {
        if Lowest(pages, p) && Lowest(pages, q) {
          SamePage(pages, p, q);
        } else if !Lowest(pages, p) && !Lowest(pages, q) {
          SuffixedInjective(p.base, p.id, q.base, q.id);
          SamePage(pages, p, q);
        }
      }
    }
  }

  /** Three issuers, two pages with the same address: the second "a" moves to "a-5", which the
      third already has. */
  lemma SlugsCanCollide()
    ensures var pages := [Page(1, "a"), Page(5, "a"), Page(9, "a-5")];
      && UniqueIds(pages)
      && SlugFor(pages, pages[1]) == "a-5" && SlugFor(pages, pages[2]) == "a-5"
  {
    var pages := [Page(1, "a"), Page(5, "a"), Page(9, "a-5")];
    assert pages[0] in pages && !Lowest(pages, pages[1]);
    assert Digits(5) == "5";
    assert Suffixed("a", 5) == "a-5";
    assert Lowest(pages, pages[2]) by {
      assert "a" != "a-5";
    }
  }
}

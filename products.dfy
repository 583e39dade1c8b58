/**
 * Tracked products: the unique slug a product receives when first saved, and the per-platform
 * latest prices with the lowest, highest and average of them in ringgit.
 */
module Products {
  import opened Options
  import opened Numbers
  import opened Currency
  import opened Records

  // ----------------------------------------------------------------- slugs

  /** The `k`-th slug tried for `base`: `base` itself, then `base-1`, `base-2`, ... */
  function SlugCandidate(base: string, k: nat): string {
    if k == 0 then base else base + "-" + NatToString(k)
  }

  /** Different attempts try different slugs. */
  lemma CandidatesDistinct(base: string, j: nat, k: nat)
    requires j != k
    ensures SlugCandidate(base, j) != SlugCandidate(base, k)
  {
    if j != 0 && k != 0 {
      var sj, sk := NatToString(j), NatToString(k);
      if base + "-" + sj == base + "-" + sk {
        assert sj == (base + "-" + sj)[|base| + 1..];
        assert sk == (base + "-" + sk)[|base| + 1..];
        NatToStringInjective(j, k);
      }
    } else {
      assert |SlugCandidate(base, j)| != |SlugCandidate(base, k)|;
    }
  }

  /** The slugs of the first `n` attempts. */
  function CandidatesBelow(base: string, n: nat): (s: set<string>)
    ensures |s| == n
    ensures forall j: nat :: j < n ==> SlugCandidate(base, j) in s
    ensures forall x :: x in s ==> exists j: nat :: j < n && x == SlugCandidate(base, j)
  {
    if n == 0 then {}
    else
      var earlier := CandidatesBelow(base, n - 1);
      assert SlugCandidate(base, n - 1) !in earlier by {
        forall j: nat | j < n - 1 ensures SlugCandidate(base, j) != SlugCandidate(base, n - 1) {
          CandidatesDistinct(base, j, n - 1);
        }
      }
      earlier + {SlugCandidate(base, n - 1)}
  }

  /** Every one of the first `n` attempts is taken, so at least `n` slugs are taken. */
  lemma TakenBound(base: string, taken: set<string>, n: nat)
    requires forall j: nat :: j < n ==> SlugCandidate(base, j) in taken
    ensures n <= |taken|
  {
    var below := CandidatesBelow(base, n);
    assert below <= taken by {
      forall x | x in below ensures x in taken {
        var j: nat :| j < n && x == SlugCandidate(base, j);
      }
    }
    var others := taken - below;
    assert taken == below + others && below !! others;
  }

  /** The slug the loop settles on, starting from attempt `k`: the first free candidate. */
  function FreeSlugFrom(base: string, taken: set<string>, k: nat): (s: string)
    requires forall j: nat :: j < k ==> SlugCandidate(base, j) in taken
    ensures s !in taken
    ensures exists n: nat ::
      (k <= n && s == SlugCandidate(base, n) && forall j: nat :: j < n ==> SlugCandidate(base, j) in taken)
    decreases |taken| - k
  {
    TakenBound(base, taken, k);
    if SlugCandidate(base, k) !in taken then SlugCandidate(base, k)
    else
      TakenBound(base, taken, k + 1);
      FreeSlugFrom(base, taken, k + 1)
  }

  /** The slug `save` chooses for `base`: the first of `base`, `base-1`, `base-2`, ... not yet taken. */
  function FreeSlug(base: string, taken: set<string>): (s: string)
    ensures s !in taken
    ensures exists n: nat ::
      (s == SlugCandidate(base, n) && forall j: nat :: j < n ==> SlugCandidate(base, j) in taken)
  {
    FreeSlugFrom(base, taken, 0)
  }

  /** A free base is used unchanged. */
  lemma FreeBaseIsKept(base: string, taken: set<string>)
    requires base !in taken
    ensures FreeSlug(base, taken) == base
  {
  }

  /** A product: its name, its slug (assigned on the first save), and whether it is tracked. */
  class Product {
    var id: nat
    var name: Option<string>
    var slug: Option<string>
    var isActive: bool

    constructor(id: nat, name: Option<string>, slug: Option<string>, isActive: bool)
      ensures this.id == id && this.name == name && this.slug == slug && this.isActive == isActive
    {
      this.id := id;
      this.name := name;
      this.slug := slug;
      this.isActive := isActive;
    }

    /**
     * `Product.save`: a product without a slug but with a name receives the slugified name, or
     * the first `-1`, `-2`, ... variant of it that no stored product uses. `taken` holds the
     * slugs already stored; `slugify` is the name-to-slug transliteration.
     */
    method Save(taken: set<string>, slugify: string -> string)
      modifies this`slug
      ensures old(slug).Some? && old(slug).value != [] ==> slug == old(slug)
      ensures (old(slug).None? || old(slug).value == []) && (name.None? || name.value == []) ==> slug == old(slug)
      ensures (old(slug).None? || old(slug).value == []) && name.Some? && name.value != [] ==>
        slug == Some(FreeSlug(slugify(name.value), taken))
    {
      if (slug.None? || slug.value == []) && name.Some? && name.value != [] {
        var base := slugify(name.value);
        var origin: nat := 1;
        var unique := base;
        while unique in taken
          invariant 1 <= origin
          invariant unique == SlugCandidate(base, origin - 1)
          invariant forall j: nat :: j < origin - 1 ==> SlugCandidate(base, j) in taken
          decreases |taken| - origin
        {
          TakenBound(base, taken, origin);
          unique := SlugCandidate(base, origin);
          origin := origin + 1;
        }
        UniqueFreeSlug(base, taken, origin - 1);
        slug := Some(unique);
      }
    }
  }

  /** Starting the search at any attempt whose predecessors are all taken gives the same slug. */
  lemma {:induction false} FreeSlugFromAny(base: string, taken: set<string>, k: nat)
    requires forall j: nat :: j < k ==> SlugCandidate(base, j) in taken
    ensures FreeSlugFrom(base, taken, k) == FreeSlug(base, taken)
    decreases k
  {
    if k > 0 {
      FreeSlugFromAny(base, taken, k - 1);
    }
  }

  lemma UniqueFreeSlug(base: string, taken: set<string>, k: nat)
    requires forall j: nat :: j < k ==> SlugCandidate(base, j) in taken
    requires SlugCandidate(base, k) !in taken
    ensures SlugCandidate(base, k) == FreeSlug(base, taken)
  {
    FreeSlugFromAny(base, taken, k);
  }

  // ---------------------------------------------------------- latest prices

  /** `product.prices`: the records of one product, in table order. */
  function ProductRows(rows: seq<PriceRecord>, product: nat): (mine: seq<PriceRecord>)
    ensures forall r :: r in mine <==> r in rows && r.product == product
    decreases |rows|
  {
    if rows == [] then []
    else
      var rest := ProductRows(rows[..|rows| - 1], product);
      var last := rows[|rows| - 1];
      assert rows == rows[..|rows| - 1] + [last];
      if last.product == product then rest + [last] else rest
  }

  /** The platforms of some records, each once, in order of first appearance. */
  function PlatformIds(rows: seq<PriceRecord>): (ids: seq<nat>)
    ensures forall i, j :: 0 <= i < j < |ids| ==> ids[i] != ids[j]
    ensures forall p :: p in ids <==> exists r :: r in rows && r.platform.id == p
    decreases |rows|
  {
    if rows == [] then []
    else
      var ids := PlatformIds(rows[..|rows| - 1]);
      var p := rows[|rows| - 1].platform.id;
      assert rows == rows[..|rows| - 1] + [rows[|rows| - 1]];
      if p in ids then ids else ids + [p]
  }

  /** `Max('scraped_at')` over the records of platform `p`; `None` when there are none. */
  function NewestDate(rows: seq<PriceRecord>, p: nat): (d: Option<int>)
    ensures d.Some? <==> exists r :: r in rows && r.platform.id == p
    ensures d.Some? ==> exists r :: r in rows && r.platform.id == p && r.scrapedAt == d.value
    ensures d.Some? ==> forall r :: r in rows && r.platform.id == p ==> r.scrapedAt <= d.value
    decreases |rows|
  {
    if rows == [] then None
    else
      var rest := NewestDate(rows[..|rows| - 1], p);
      var last := rows[|rows| - 1];
      assert rows == rows[..|rows| - 1] + [last];
      if last.platform.id != p then rest
      else if rest.Some? && rest.value >= last.scrapedAt then rest
      else Some(last.scrapedAt)
  }

  /** `.filter(platform_id=p, scraped_at=d).first()`: the first such record in table order. */
  function FirstAt(rows: seq<PriceRecord>, p: nat, d: int): (r: Option<PriceRecord>)
    ensures r.Some? ==> r.value in rows && r.value.platform.id == p && r.value.scrapedAt == d
    ensures r.None? ==> forall x :: x in rows ==> x.platform.id != p || x.scrapedAt != d
    decreases |rows|
  {
    if rows == [] then None
    else if rows[0].platform.id == p && rows[0].scrapedAt == d then Some(rows[0])
    else FirstAt(rows[1..], p, d)
  }

  /** The newest date of a platform that has records. */
  function DateOf(mine: seq<PriceRecord>, p: nat): (d: int)
    requires p in PlatformIds(mine)
    ensures Some(d) == NewestDate(mine, p)
  {
    NewestDate(mine, p).value
  }

  /** `values('platform').annotate(latest_date=Max('scraped_at'))`: one (platform, newest date) per platform. */
  function LatestDates(mine: seq<PriceRecord>): (groups: seq<(nat, int)>)
    ensures |groups| == |PlatformIds(mine)|
    ensures forall i :: 0 <= i < |groups| ==> groups[i].0 == PlatformIds(mine)[i]
    ensures forall i :: 0 <= i < |groups| ==> Some(groups[i].1) == NewestDate(mine, groups[i].0)
  {
    var ids := PlatformIds(mine);
    seq(|ids|, i requires 0 <= i < |ids| => (ids[i], DateOf(mine, ids[i])))
  }

  /** The records the loop of `get_latest_prices` collects for the given groups. */
  function Collect(mine: seq<PriceRecord>, groups: seq<(nat, int)>): (out: seq<PriceRecord>)
    ensures |out| <= |groups|
    ensures forall x :: x in out ==> x in mine
    decreases |groups|
  {
    if groups == [] then []
    else
      var g := groups[|groups| - 1];
      var rest := Collect(mine, groups[..|groups| - 1]);
      match FirstAt(mine, g.0, g.1)
      case Some(r) => rest + [r]
      case None => rest
  }

  /**
   * `pos` lists, in increasing order, the groups that have a record, and `out[i]` is the first
   * record at the platform and date of group `pos[i]`.
   */
  ghost predicate OnePerGroup(mine: seq<PriceRecord>, groups: seq<(nat, int)>, out: seq<PriceRecord>, pos: seq<nat>) {
    |pos| == |out| &&
    (forall i :: 0 <= i < |pos| ==> pos[i] < |groups| && FirstAt(mine, groups[pos[i]].0, groups[pos[i]].1) == Some(out[i])) &&
    (forall i, j :: 0 <= i < j < |pos| ==> pos[i] < pos[j]) &&
    (forall k :: 0 <= k < |groups| && FirstAt(mine, groups[k].0, groups[k].1).Some? ==> k in pos)
  }

  /** The loop collects exactly one record per group that has one, the group's first, in group order. */
  lemma {:induction false} CollectOnePerGroup(mine: seq<PriceRecord>, groups: seq<(nat, int)>)
    ensures exists pos :: OnePerGroup(mine, groups, Collect(mine, groups), pos)
    decreases |groups|
  {
    if groups == [] {
      assert OnePerGroup(mine, groups, Collect(mine, groups), []);
    } else {
      var front := groups[..|groups| - 1];
      CollectOnePerGroup(mine, front);
      var before: seq<nat> :| OnePerGroup(mine, front, Collect(mine, front), before);
      var pos := OnePerGroupStep(mine, groups, before);
    }
  }

  /** One more group keeps `OnePerGroup`, with its own position added when it has a record. */
  lemma OnePerGroupStep(mine: seq<PriceRecord>, groups: seq<(nat, int)>, before: seq<nat>) returns (pos: seq<nat>)
    requires groups != []
    requires OnePerGroup(mine, groups[..|groups| - 1], Collect(mine, groups[..|groups| - 1]), before)
    ensures OnePerGroup(mine, groups, Collect(mine, groups), pos)
  {
    var n := |groups| - 1;
    var front := groups[..n];
    assert forall k :: 0 <= k < n ==> front[k] == groups[k];
    var found := FirstAt(mine, groups[n].0, groups[n].1);
    var out := Collect(mine, front);
    forall i | 0 <= i < |before|
      ensures before[i] < n && FirstAt(mine, groups[before[i]].0, groups[before[i]].1) == Some(out[i])
    {
      assert front[before[i]] == groups[before[i]];
    }
    forall k | 0 <= k < n && FirstAt(mine, groups[k].0, groups[k].1).Some?
      ensures k in before
    {
      assert front[k] == groups[k];
    }
    if found.Some? {
      pos := before + [n];
      var now := out + [found.value];
      assert Collect(mine, groups) == now;
      forall i | 0 <= i < |pos|
        ensures pos[i] < |groups| && FirstAt(mine, groups[pos[i]].0, groups[pos[i]].1) == Some(now[i])
      {
        if i < |before| {
          assert pos[i] == before[i] && now[i] == out[i];
        }
      }
    } else {
      pos := before;
      assert Collect(mine, groups) == out;
    }
  }

  /** `get_latest_prices`, as a value: for each platform, its newest record of the product. */
  function LatestView(rows: seq<PriceRecord>, product: nat): (v: seq<PriceRecord>)
    ensures forall x :: x in v ==> x in rows && x.product == product
  {
    var mine := ProductRows(rows, product);
    Collect(mine, LatestDates(mine))
  }

  /** `Product.get_latest_prices` */
  method LatestPrices(rows: seq<PriceRecord>, product: nat) returns (latest: seq<PriceRecord>)
    ensures latest == LatestView(rows, product)
  {
    var mine := ProductRows(rows, product);
    latest := CollectGroups(mine, LatestDates(mine));
  }

  /** The loop of `get_latest_prices`: the first record of each group that has one, in group order. */
  method CollectGroups(mine: seq<PriceRecord>, groups: seq<(nat, int)>) returns (latest: seq<PriceRecord>)
    ensures latest == Collect(mine, groups)
  {
    latest := [];
    var i := 0;
    while i < |groups|
      invariant 0 <= i <= |groups|
      invariant latest == Collect(mine, groups[..i])
    {
      CollectStep(mine, groups, i);
      var found := FirstAt(mine, groups[i].0, groups[i].1);
      if found.Some? {
        latest := latest + [found.value];
      }
      i := i + 1;
    }
    assert groups[..|groups|] == groups;
  }

  /** One more group adds its first record, if it has one. */
  lemma CollectStep(mine: seq<PriceRecord>, groups: seq<(nat, int)>, i: nat)
    requires i < |groups|
    ensures Collect(mine, groups[..i + 1]) ==
              match FirstAt(mine, groups[i].0, groups[i].1)
              case Some(r) => Collect(mine, groups[..i]) + [r]
              case None => Collect(mine, groups[..i])
  {
    assert groups[..i + 1][..i] == groups[..i];
    assert groups[..i + 1][i] == groups[i];
  }

  /** When every group's record exists, `Collect` lists exactly those records, group by group. */
  lemma {:induction false} CollectAllFound(mine: seq<PriceRecord>, groups: seq<(nat, int)>)
    requires forall i :: 0 <= i < |groups| ==> FirstAt(mine, groups[i].0, groups[i].1).Some?
    ensures |Collect(mine, groups)| == |groups|
    ensures forall i :: 0 <= i < |groups| ==>
      Collect(mine, groups)[i] == FirstAt(mine, groups[i].0, groups[i].1).value
    decreases |groups|
  {
    if groups != [] {
      var n := |groups| - 1;
      var front := groups[..n];
      assert forall i :: 0 <= i < |front| ==> front[i] == groups[i];
      CollectAllFound(mine, front);
      var now := Collect(mine, front) + [FirstAt(mine, groups[n].0, groups[n].1).value];
      assert Collect(mine, groups) == now;
      forall i | 0 <= i < |groups|
        ensures now[i] == FirstAt(mine, groups[i].0, groups[i].1).value
      {
        if i < n {
          assert now[i] == Collect(mine, front)[i];
        }
      }
    }
  }

  /** Every (platform, newest date) group has a record. */
  lemma GroupsAllFound(mine: seq<PriceRecord>)
    ensures var groups := LatestDates(mine);
      forall i :: 0 <= i < |groups| ==> FirstAt(mine, groups[i].0, groups[i].1).Some?
  {
    var groups := LatestDates(mine);
    forall i | 0 <= i < |groups| ensures FirstAt(mine, groups[i].0, groups[i].1).Some? {
      var d := NewestDate(mine, groups[i].0);
      assert Some(groups[i].1) == d;
      var w :| w in mine && w.platform.id == groups[i].0 && w.scrapedAt == d.value;
    }
  }

  /**
   * The latest records line up with the platforms of the product: the `i`-th is a record of the
   * `i`-th platform, taken at that platform's newest date.
   */
  lemma LatestAligned(rows: seq<PriceRecord>, product: nat)
    ensures var mine := ProductRows(rows, product);
      var ids := PlatformIds(mine);
      var v := LatestView(rows, product);
      |v| == |ids| &&
      forall i :: 0 <= i < |v| ==>
        v[i] in mine && v[i].platform.id == ids[i] && Some(v[i].scrapedAt) == NewestDate(mine, ids[i])
  {
    var mine := ProductRows(rows, product);
    var groups := LatestDates(mine);
    GroupsAllFound(mine);
    CollectAllFound(mine, groups);
  }

  /** At most one latest record per platform. */
  lemma LatestOnePerPlatform(rows: seq<PriceRecord>, product: nat)
    ensures var v := LatestView(rows, product);
      forall i, j :: 0 <= i < j < |v| ==> v[i].platform.id != v[j].platform.id
  {
    LatestAligned(rows, product);
  }

  /** Every latest record is a record of the product, and the newest of its platform. */
  lemma LatestIsNewest(rows: seq<PriceRecord>, product: nat)
    ensures forall r :: r in LatestView(rows, product) ==>
      r in rows && r.product == product &&
      forall x :: x in rows && x.product == product && x.platform.id == r.platform.id ==> x.scrapedAt <= r.scrapedAt
  {
    var mine := ProductRows(rows, product);
    var ids := PlatformIds(mine);
    var v := LatestView(rows, product);
    LatestAligned(rows, product);
    forall r | r in v
      ensures r in rows && r.product == product
      ensures forall x :: x in rows && x.product == product && x.platform.id == r.platform.id ==> x.scrapedAt <= r.scrapedAt
    {
      var i :| 0 <= i < |v| && v[i] == r;
      var d := NewestDate(mine, ids[i]);
      assert d.Some? && d.value == r.scrapedAt;
      forall x | x in rows && x.product == product && x.platform.id == r.platform.id ensures x.scrapedAt <= r.scrapedAt {
        assert x in mine;
      }
    }
  }

  /** Every platform on which the product has a record contributes its latest record. */
  lemma LatestCoversPlatforms(rows: seq<PriceRecord>, product: nat)
    ensures forall x :: x in rows && x.product == product ==>
      exists r :: r in LatestView(rows, product) && r.platform.id == x.platform.id
  {
    var mine := ProductRows(rows, product);
    var ids := PlatformIds(mine);
    var v := LatestView(rows, product);
    LatestAligned(rows, product);
    forall x | x in rows && x.product == product
      ensures exists r :: r in v && r.platform.id == x.platform.id
    {
      assert x in mine;
      assert x.platform.id in ids;
      var i :| 0 <= i < |ids| && ids[i] == x.platform.id;
      assert v[i] in v;
    }
  }

  // ------------------------------------------------------------ aggregates

  /** The ringgit value of each record. */
  function MyrPrices(latest: seq<PriceRecord>): (keys: seq<real>)
    ensures |keys| == |latest|
    ensures forall i :: 0 <= i < |latest| ==> keys[i] == PriceInMyr(latest[i])
  {
    seq(|latest|, i requires 0 <= i < |latest| => PriceInMyr(latest[i]))
  }

  /** The position `min(..., key=...)` returns: the first position holding the least key. */
  function ArgMin(keys: seq<real>): (m: nat)
    requires keys != []
    ensures m < |keys|
    ensures forall j :: 0 <= j < |keys| ==> keys[m] <= keys[j]
    ensures forall j :: 0 <= j < m ==> keys[j] > keys[m]
    decreases |keys|
  {
    if |keys| == 1 then 0
    else
      var m := ArgMin(keys[..|keys| - 1]);
      assert forall j :: 0 <= j < |keys| - 1 ==> keys[..|keys| - 1][j] == keys[j];
      if keys[|keys| - 1] < keys[m] then |keys| - 1 else m
  }

  /** The position `max(..., key=...)` returns: the first position holding the greatest key. */
  function ArgMax(keys: seq<real>): (m: nat)
    requires keys != []
    ensures m < |keys|
    ensures forall j :: 0 <= j < |keys| ==> keys[m] >= keys[j]
    ensures forall j :: 0 <= j < m ==> keys[j] < keys[m]
    decreases |keys|
  {
    if |keys| == 1 then 0
    else
      var m := ArgMax(keys[..|keys| - 1]);
      assert forall j :: 0 <= j < |keys| - 1 ==> keys[..|keys| - 1][j] == keys[j];
      if keys[|keys| - 1] > keys[m] then |keys| - 1 else m
  }

  /** `get_lowest_price` over the latest records: the first one of least ringgit value. */
  function Lowest(latest: seq<PriceRecord>): (r: Option<PriceRecord>)
    ensures r.None? <==> latest == []
    ensures r.Some? ==> r.value in latest && forall x :: x in latest ==> PriceInMyr(r.value) <= PriceInMyr(x)
    ensures r.Some? ==> exists m :: 0 <= m < |latest| && r.value == latest[m] &&
                                    forall j :: 0 <= j < m ==> PriceInMyr(latest[j]) > PriceInMyr(latest[m])
  {
    if latest == [] then None
    else
      var m := ArgMin(MyrPrices(latest));
      LeastAt(latest, m);
      Some(latest[m])
  }

  /** `get_highest_price` over the latest records: the first one of greatest ringgit value. */
  function Highest(latest: seq<PriceRecord>): (r: Option<PriceRecord>)
    ensures r.None? <==> latest == []
    ensures r.Some? ==> r.value in latest && forall x :: x in latest ==> PriceInMyr(r.value) >= PriceInMyr(x)
    ensures r.Some? ==> exists m :: 0 <= m < |latest| && r.value == latest[m] &&
                                    forall j :: 0 <= j < m ==> PriceInMyr(latest[j]) < PriceInMyr(latest[m])
  {
    if latest == [] then None
    else
      var m := ArgMax(MyrPrices(latest));
      GreatestAt(latest, m);
      Some(latest[m])
  }

  /** The record at the position `ArgMin` picks is of least ringgit value, and every earlier one is dearer. */
  lemma LeastAt(latest: seq<PriceRecord>, m: nat)
    requires latest != [] && m == ArgMin(MyrPrices(latest))
    ensures forall x :: x in latest ==> PriceInMyr(latest[m]) <= PriceInMyr(x)
    ensures forall j :: 0 <= j < m ==> PriceInMyr(latest[j]) > PriceInMyr(latest[m])
  {
    var keys := MyrPrices(latest);
    forall x | x in latest
      ensures PriceInMyr(latest[m]) <= PriceInMyr(x)
    {
      var j :| 0 <= j < |latest| && x == latest[j];
      assert keys[m] <= keys[j];
    }
  }

  /** The record at the position `ArgMax` picks is of greatest ringgit value, and every earlier one is cheaper. */
  lemma GreatestAt(latest: seq<PriceRecord>, m: nat)
    requires latest != [] && m == ArgMax(MyrPrices(latest))
    ensures forall x :: x in latest ==> PriceInMyr(latest[m]) >= PriceInMyr(x)
    ensures forall j :: 0 <= j < m ==> PriceInMyr(latest[j]) < PriceInMyr(latest[m])
  {
    var keys := MyrPrices(latest);
    forall x | x in latest
      ensures PriceInMyr(latest[m]) >= PriceInMyr(x)
    {
      var j :| 0 <= j < |latest| && x == latest[j];
      assert keys[m] >= keys[j];
    }
  }

  function Sum(keys: seq<real>): real
    decreases |keys|
  {
    if keys == [] then 0.0 else Sum(keys[..|keys| - 1]) + keys[|keys| - 1]
  }

  /** `get_average_price` over the latest records: the mean ringgit value. */
  function Average(latest: seq<PriceRecord>): (a: Option<real>)
    ensures a.None? <==> latest == []
    ensures a.Some? ==> a.value == Mean(Sum(MyrPrices(latest)), |latest|)
  {
    if latest == [] then None
    else
      Some(Mean(Sum(MyrPrices(latest)), |latest|))
  }

  /** The quotient of a total by a positive count: multiplied back by the count it gives the total. */
  function Mean(total: real, count: nat): (m: real)
    requires count > 0
    ensures m * (count as real) == total
  {
    total / (count as real)
  }

  /** Of two records of equal ringgit value, `min` and `max` both pick the first. */
  lemma TieGoesToFirst(a: PriceRecord, b: PriceRecord)
    requires PriceInMyr(a) == PriceInMyr(b)
    ensures Lowest([a, b]) == Some(a)
    ensures Highest([a, b]) == Some(a)
  {
  }

  /** A sum of keys lies between their count times their least and their count times their greatest. */
  lemma {:induction false} SumBounds(keys: seq<real>, lo: real, hi: real)
    requires forall j :: 0 <= j < |keys| ==> lo <= keys[j] <= hi
    ensures (|keys| as real) * lo <= Sum(keys) <= (|keys| as real) * hi
    decreases |keys|
  {
    if keys != [] {
      var n := |keys| - 1;
      SumBounds(keys[..n], lo, hi);
      assert (|keys| as real) * lo == (n as real) * lo + lo;
      assert (|keys| as real) * hi == (n as real) * hi + hi;
    }
  }

  lemma MeanBounds(total: real, n: real, lo: real, hi: real)
    requires n > 0.0 && n * lo <= total <= n * hi
    ensures lo <= total / n <= hi
  {
    assert total / n * n == total;
  }

  /** The mean of some keys lies between any lower and any upper bound of them. */
  lemma MeanBetweenBounds(keys: seq<real>, lo: real, hi: real)
    requires keys != []
    requires forall j :: 0 <= j < |keys| ==> lo <= keys[j] <= hi
    ensures lo <= Sum(keys) / (|keys| as real) <= hi
  {
    SumBounds(keys, lo, hi);
    MeanBounds(Sum(keys), |keys| as real, lo, hi);
  }

  /** The average lies between the value of the lowest and the value of the highest record. */
  lemma AverageBetweenLowestAndHighest(latest: seq<PriceRecord>)
    requires latest != []
    ensures PriceInMyr(Lowest(latest).value) <= Average(latest).value <= PriceInMyr(Highest(latest).value)
  {
    var keys := MyrPrices(latest);
    MeanBetweenBounds(keys, keys[ArgMin(keys)], keys[ArgMax(keys)]);
    assert PriceInMyr(Lowest(latest).value) == keys[ArgMin(keys)];
    assert PriceInMyr(Highest(latest).value) == keys[ArgMax(keys)];
  }
}

/**
 * The template collection of src/lib/stores/templateStore.ts.
 *
 * The writable store holding the list of templates becomes the class
 * `TemplateStore`: each of its operations replaces the list, as the source's
 * `update` callbacks do. The most-recently-used list becomes the class
 * `RecentStore`. The callbacks themselves, the read-only queries and the
 * derived views (`starredTemplates`, `recentTemplates`) are functions on the
 * lists. The fresh id and the ISO timestamp that the source draws from
 * `Date.now()`, `Math.random()` and `new Date()` are parameters.
 */
module TemplateStore {
  import opened Wrappers
  import opened Seqs
  import opened Text
  import TransformEngine

  // ---------------------------------------------------------------------------
  // Data model
  // ---------------------------------------------------------------------------

  type Step = TransformEngine.Transformation

  /** A saved template; `category`, `tags` and `exampleText` are optional keys. */
  datatype Template = Template(
    id: string,
    name: string,
    description: string,
    transformations: seq<Step>,
    starred: bool,
    category: Option<string>,
    tags: Option<seq<string>>,
    exampleText: Option<string>,
    createdAt: string,
    updatedAt: string,
    usageCount: int)

  /** What `create` is given: a template without its id, timestamps and usage count. */
  datatype Draft = Draft(
    name: string,
    description: string,
    transformations: seq<Step>,
    starred: bool,
    category: Option<string>,
    tags: Option<seq<string>>,
    exampleText: Option<string>)

  /**
   * The `Partial<Template>` given to `update`. `None` is a key the object does
   * not have. For the optional fields, `Some(None)` is a key present with the
   * value `undefined`, which the object spread copies over. An `updatedAt` in
   * the partial object is always overwritten by the call's own timestamp, so
   * it has no field here.
   */
  datatype TemplateUpdate = TemplateUpdate(
    id: Option<string>,
    name: Option<string>,
    description: Option<string>,
    transformations: Option<seq<Step>>,
    starred: Option<bool>,
    category: Option<Option<string>>,
    tags: Option<Option<seq<string>>>,
    exampleText: Option<Option<string>>,
    createdAt: Option<string>,
    usageCount: Option<int>)

  /** The empty partial object `{}`. */
  const NoChanges := TemplateUpdate(None, None, None, None, None, None, None, None, None, None)

  /** One entry of the recent list. */
  datatype RecentTemplate = RecentTemplate(templateId: string, usedAt: string)

  /** The recent list keeps at most this many entries. */
  const MaxRecent := 10

  // ---------------------------------------------------------------------------
  // create and duplicate
  // ---------------------------------------------------------------------------

  /** The fields of a template that `create` takes from its argument. */
  function DraftOf(t: Template): Draft
  {
    Draft(t.name, t.description, t.transformations, t.starred, t.category, t.tags, t.exampleText)
  }

  /**
   * The template `create` appends: the draft, the fresh id, no uses yet, and
   * the two clock readings taken for `createdAt` and `updatedAt`.
   */
  function NewTemplate(d: Draft, id: string, created: string, updated: string): (t: Template)
    ensures DraftOf(t) == d
    ensures t.id == id && t.createdAt == created && t.updatedAt == updated && t.usageCount == 0
  {
    Template(id, d.name, d.description, d.transformations, d.starred, d.category, d.tags,
      d.exampleText, created, updated, 0)
  }

  /** The copy `duplicate` appends: a fresh, unstarred, unused template named "<name> (Copy)". */
  function Copy(t: Template, id: string, created: string, updated: string): (c: Template)
    ensures DraftOf(c) == DraftOf(t).(name := t.name + " (Copy)", starred := false)
    ensures c.id == id && c.createdAt == created && c.updatedAt == updated && c.usageCount == 0
  {
    t.(id := id, name := t.name + " (Copy)", createdAt := created, updatedAt := updated,
      usageCount := 0, starred := false)
  }

  // ---------------------------------------------------------------------------
  // update: the object spread `{ ...template, ...updates, updatedAt }`
  // ---------------------------------------------------------------------------

  function Override<T>(current: T, given: Option<T>): T
  {
    if given.Some? then given.value else current
  }

  /** `{ ...template, ...updates, updatedAt: now }`. */
  function Merge(t: Template, u: TemplateUpdate, now: string): (r: Template)
    ensures r.updatedAt == now
  {
    Template(
      Override(t.id, u.id),
      Override(t.name, u.name),
      Override(t.description, u.description),
      Override(t.transformations, u.transformations),
      Override(t.starred, u.starred),
      Override(t.category, u.category),
      Override(t.tags, u.tags),
      Override(t.exampleText, u.exampleText),
      Override(t.createdAt, u.createdAt),
      now,
      Override(t.usageCount, u.usageCount))
  }

  function Later<T>(first: Option<T>, second: Option<T>): Option<T>
  {
    if second.Some? then second else first
  }

  /** `{ ...first, ...second }`: the keys of `second` win. */
  function Combine(first: TemplateUpdate, second: TemplateUpdate): TemplateUpdate
  {
    TemplateUpdate(
      Later(first.id, second.id),
      Later(first.name, second.name),
      Later(first.description, second.description),
      Later(first.transformations, second.transformations),
      Later(first.starred, second.starred),
      Later(first.category, second.category),
      Later(first.tags, second.tags),
      Later(first.exampleText, second.exampleText),
      Later(first.createdAt, second.createdAt),
      Later(first.usageCount, second.usageCount))
  }

  /** Merging `{}` only stamps the time. */
  lemma MergeNoChanges(t: Template, now: string)
    ensures Merge(t, NoChanges, now) == t.(updatedAt := now)
  {
  }

  /** Two merges in a row are one merge of the combined partial objects, stamped with the later time. */
  lemma MergeCombine(t: Template, first: TemplateUpdate, second: TemplateUpdate, earlier: string, now: string)
    ensures Merge(Merge(t, first, earlier), second, now) == Merge(t, Combine(first, second), now)
  {
  }

  /** Repeating an update with the same partial object and time changes nothing more. */
  lemma MergeIdempotent(t: Template, u: TemplateUpdate, now: string)
    ensures Merge(Merge(t, u, now), u, now) == Merge(t, u, now)
  {
    MergeCombine(t, u, u, now, now);
    assert Combine(u, u) == u;
  }

  // ---------------------------------------------------------------------------
  // The id-keyed rewrites: `templates.map(t => t.id === id ? f(t) : t)`
  // ---------------------------------------------------------------------------

  function MapMatching(ts: seq<Template>, id: string, f: Template -> Template): (r: seq<Template>)
    ensures |r| == |ts|
    ensures forall i :: 0 <= i < |ts| ==> r[i] == if ts[i].id == id then f(ts[i]) else ts[i]
  {
    seq(|ts|, i requires 0 <= i < |ts| => if ts[i].id == id then f(ts[i]) else ts[i])
  }

  /** The list after `update(id, updates)`. */
  function UpdateById(ts: seq<Template>, id: string, u: TemplateUpdate, now: string): (r: seq<Template>)
    ensures |r| == |ts|
    ensures forall i :: 0 <= i < |ts| && ts[i].id != id ==> r[i] == ts[i]
    ensures forall i :: 0 <= i < |ts| && ts[i].id == id ==> r[i] == Merge(ts[i], u, now)
  {
    MapMatching(ts, id, t => Merge(t, u, now))
  }

  /** The list after `toggleStar(id)`. */
  function ToggleStarById(ts: seq<Template>, id: string, now: string): (r: seq<Template>)
    ensures |r| == |ts|
    ensures forall i :: 0 <= i < |ts| ==> (r[i].starred <==> ts[i].starred != (ts[i].id == id))
    ensures forall i :: 0 <= i < |ts| && ts[i].id != id ==> r[i] == ts[i]
    ensures forall i :: 0 <= i < |ts| && ts[i].id == id ==>
      r[i].(starred := ts[i].starred, updatedAt := ts[i].updatedAt) == ts[i] && r[i].updatedAt == now
  {
    MapMatching(ts, id, (t: Template) => t.(starred := !t.starred, updatedAt := now))
  }

  /** The list after `incrementUsageCount(id)`; unlike the other rewrites it keeps `updatedAt`. */
  function IncrementUsageById(ts: seq<Template>, id: string): (r: seq<Template>)
    ensures |r| == |ts|
    ensures forall i :: 0 <= i < |ts| && ts[i].id != id ==> r[i] == ts[i]
    ensures forall i :: 0 <= i < |ts| && ts[i].id == id ==>
      r[i] == ts[i].(usageCount := ts[i].usageCount + 1)
  {
    MapMatching(ts, id, (t: Template) => t.(usageCount := t.usageCount + 1))
  }

  /** The ids of a list of templates, in order. */
  function Ids(ts: seq<Template>): (r: seq<string>)
    ensures |r| == |ts|
    ensures forall i :: 0 <= i < |ts| ==> r[i] == ts[i].id
  {
    seq(|ts|, i requires 0 <= i < |ts| => ts[i].id)
  }

  /** Templates carrying `id`: the occurrences of `id` among the ids. */
  function CountId(ts: seq<Template>, id: string): (n: nat)
    ensures n <= |ts|
  {
    Count(Ids(ts), id)
  }

  /** Counting the ids of a non-empty list looks at its head, then at the rest. */
  lemma CountIdStep(ts: seq<Template>, id: string)
    requires |ts| > 0
    ensures CountId(ts, id) == (if ts[0].id == id then 1 else 0) + CountId(ts[1..], id)
  {
    assert Ids(ts)[1..] == Ids(ts[1..]);
  }

  /** The usage counts of all templates added up. */
  function TotalUsage(ts: seq<Template>): int
  {
    if |ts| == 0 then 0 else ts[0].usageCount + TotalUsage(ts[1..])
  }

  /** An update that does not set `id` keeps every id where it was. */
  lemma UpdateKeepsIds(ts: seq<Template>, id: string, u: TemplateUpdate, now: string)
    requires u.id.None?
    ensures Ids(UpdateById(ts, id, u, now)) == Ids(ts)
  {
    var r := UpdateById(ts, id, u, now);
    assert forall i :: 0 <= i < |ts| ==> Ids(r)[i] == Ids(ts)[i];
  }

  /**
   * Two updates of the same id are one update with the combined partial
   * object, as long as the first does not move the templates to another id.
   */
  lemma UpdateTwice(ts: seq<Template>, id: string, first: TemplateUpdate, second: TemplateUpdate,
                    earlier: string, now: string)
    requires first.id.None? || first.id == Some(id)
    ensures UpdateById(UpdateById(ts, id, first, earlier), id, second, now)
         == UpdateById(ts, id, Combine(first, second), now)
  {
    var once := UpdateById(ts, id, first, earlier);
    var twice := UpdateById(once, id, second, now);
    var direct := UpdateById(ts, id, Combine(first, second), now);
    forall i | 0 <= i < |ts| ensures twice[i] == direct[i] {
      if ts[i].id == id {
        MergeCombine(ts[i], first, second, earlier, now);
      }
    }
  }

  /** Toggling a star twice restores every flag; only the matching templates' `updatedAt` moved. */
  lemma ToggleStarTwice(ts: seq<Template>, id: string, earlier: string, now: string)
    ensures var r := ToggleStarById(ToggleStarById(ts, id, earlier), id, now);
      |r| == |ts| &&
      forall i :: 0 <= i < |ts| ==> r[i] == if ts[i].id == id then ts[i].(updatedAt := now) else ts[i]
  {
  }

  /** Incrementing raises the total usage by the number of templates carrying the id. */
  lemma {:induction false} IncrementTotalUsage(ts: seq<Template>, id: string)
    ensures TotalUsage(IncrementUsageById(ts, id)) == TotalUsage(ts) + CountId(ts, id)
  {
    if |ts| > 0 {
      var r := IncrementUsageById(ts, id);
      assert r[1..] == IncrementUsageById(ts[1..], id);
      IncrementTotalUsage(ts[1..], id);
      CountIdStep(ts, id);
    }
  }

  // ---------------------------------------------------------------------------
  // delete, getById
  // ---------------------------------------------------------------------------

  function OtherId(id: string): Template -> bool
  {
    (t: Template) => t.id != id
  }

  /** The list after `delete(id)`: `templates.filter(t => t.id !== id)`. */
  function DeleteById(ts: seq<Template>, id: string): (r: seq<Template>)
    ensures forall t :: t in r <==> t in ts && t.id != id
    ensures IsSubsequence(r, ts)
  {
    FilterSubsequence(ts, OtherId(id));
    Filter(ts, OtherId(id))
  }

  /** Deleting removes exactly the templates carrying the id. */
  lemma {:induction false} DeleteCount(ts: seq<Template>, id: string)
    ensures |DeleteById(ts, id)| == |ts| - CountId(ts, id)
  {
    if |ts| > 0 {
      DeleteCount(ts[1..], id);
      CountIdStep(ts, id);
    }
  }

  /** The position of the first template carrying `id`, or `|ts|` when there is none. */
  function IndexOfId(ts: seq<Template>, id: string): (k: nat)
    ensures k <= |ts|
    ensures k < |ts| ==> ts[k].id == id
    ensures forall j :: 0 <= j < k ==> ts[j].id != id
  {
    if |ts| == 0 then 0
    else if ts[0].id == id then 0
    else 1 + IndexOfId(ts[1..], id)
  }

  /** `getById(id)`: `templates.find(t => t.id === id)`. */
  function FindById(ts: seq<Template>, id: string): (r: Option<Template>)
    ensures r.None? <==> forall i :: 0 <= i < |ts| ==> ts[i].id != id
    ensures r.Some? ==> r.value.id == id
    ensures r.Some? ==>
      exists k :: 0 <= k < |ts| && ts[k] == r.value && forall j :: 0 <= j < k ==> ts[j].id != id
  {
    var k := IndexOfId(ts, id);
    if k < |ts| then Some(ts[k]) else None
  }

  /** A created template can be found under its fresh id. */
  lemma FindCreated(ts: seq<Template>, d: Draft, id: string, created: string, updated: string)
    requires FindById(ts, id).None?
    ensures FindById(ts + [NewTemplate(d, id, created, updated)], id)
         == Some(NewTemplate(d, id, created, updated))
  {
    var s := ts + [NewTemplate(d, id, created, updated)];
    assert s[|ts|].id == id;
  }

  /** Deleting a freshly created template gives back the list before `create`. */
  lemma DeleteCreated(ts: seq<Template>, d: Draft, id: string, created: string, updated: string)
    requires FindById(ts, id).None?
    ensures DeleteById(ts + [NewTemplate(d, id, created, updated)], id) == ts
  {
    FilterAppend(ts, [NewTemplate(d, id, created, updated)], OtherId(id));
    FilterAll(ts, OtherId(id));
    assert Filter([NewTemplate(d, id, created, updated)], OtherId(id)) == [];
  }

  /** Deleting an id no template carries changes nothing. */
  lemma DeleteMissing(ts: seq<Template>, id: string)
    requires FindById(ts, id).None?
    ensures DeleteById(ts, id) == ts
  {
    FilterAll(ts, OtherId(id));
  }

  // ---------------------------------------------------------------------------
  // search and filterByCategory
  // ---------------------------------------------------------------------------

  /** The lower-cased `needle` occurs in the lower-cased name, description or one of the tags. */
  predicate Mentions(t: Template, needle: string)
  {
    Contains(ToLower(t.name), needle)
    || Contains(ToLower(t.description), needle)
    || (t.tags.Some? && exists k | 0 <= k < |t.tags.value| :: Contains(ToLower(t.tags.value[k]), needle))
  }

  function Mentioning(needle: string): Template -> bool
  {
    (t: Template) => Mentions(t, needle)
  }

  /** `search(query)`: everything for a blank query, otherwise the templates that mention it. */
  function Search(ts: seq<Template>, query: string): (r: seq<Template>)
    ensures IsBlank(query) ==> r == ts
    ensures !IsBlank(query) ==> forall t :: t in r <==> t in ts && Mentions(t, ToLower(query))
    ensures !IsBlank(query) ==>
      forall t :: multiset(r)[t] == if Mentions(t, ToLower(query)) then multiset(ts)[t] else 0
    ensures IsSubsequence(r, ts)
  {
    if IsBlank(query) then
      SubsequenceSelf(ts);
      ts
    else
      FilterSubsequence(ts, Mentioning(ToLower(query)));
      FilterMultiset(ts, Mentioning(ToLower(query)));
      Filter(ts, Mentioning(ToLower(query)))
  }

  /** A query that contains another finds no template the shorter one misses. */
  lemma SearchNarrows(ts: seq<Template>, shorter: string, longer: string)
    requires !IsBlank(longer) && Contains(longer, shorter)
    ensures forall t :: t in Search(ts, longer) ==> t in Search(ts, shorter)
  {
    if !IsBlank(shorter) {
      var lo, ls := ToLower(longer), ToLower(shorter);
      ContainsLower(longer, shorter);
      forall t | t in Search(ts, longer) ensures Mentions(t, ls) {
        if Contains(ToLower(t.name), lo) {
          ContainsTrans(ToLower(t.name), lo, ls);
        } else if Contains(ToLower(t.description), lo) {
          ContainsTrans(ToLower(t.description), lo, ls);
        } else {
          var k :| 0 <= k < |t.tags.value| && Contains(ToLower(t.tags.value[k]), lo);
          ContainsTrans(ToLower(t.tags.value[k]), lo, ls);
        }
      }
    }
  }

  function InCategory(category: string): Template -> bool
  {
    (t: Template) => t.category == Some(category)
  }

  /** `filterByCategory(category)`: everything for `""`, otherwise the exact category matches. */
  function FilterByCategory(ts: seq<Template>, category: string): (r: seq<Template>)
    ensures category == "" ==> r == ts
    ensures category != "" ==> forall t :: t in r <==> t in ts && t.category == Some(category)
    ensures category != "" ==>
      forall t :: multiset(r)[t] == if t.category == Some(category) then multiset(ts)[t] else 0
    ensures IsSubsequence(r, ts)
  {
    if category == "" then
      SubsequenceSelf(ts);
      ts
    else
      FilterSubsequence(ts, InCategory(category));
      FilterMultiset(ts, InCategory(category));
      Filter(ts, InCategory(category))
  }

  /** The categories `getCategories` collects: those present and non-empty (truthy). */
  function Categories(ts: seq<Template>): set<string>
  {
    set t | t in ts && t.category.Some? && t.category.value != "" :: t.category.value
  }

  /** A category is listed exactly when filtering by it finds a template. */
  lemma CategoryListed(ts: seq<Template>, c: string)
    ensures c in Categories(ts) <==> c != "" && |FilterByCategory(ts, c)| > 0
  {
    if c != "" && |FilterByCategory(ts, c)| > 0 {
      var t := FilterByCategory(ts, c)[0];
      assert t in FilterByCategory(ts, c);
    }
  }

  // ---------------------------------------------------------------------------
  // The recent list
  // ---------------------------------------------------------------------------

  function OtherEntry(id: string): RecentTemplate -> bool
  {
    (item: RecentTemplate) => item.templateId != id
  }

  /** The ids of the recent list, in order. */
  function RecentIds(recent: seq<RecentTemplate>): (r: seq<string>)
    ensures |r| == |recent|
    ensures forall i :: 0 <= i < |recent| ==> r[i] == recent[i].templateId
  {
    seq(|recent|, i requires 0 <= i < |recent| => recent[i].templateId)
  }

  /**
   * The list after `add(id)`: the id's older entries dropped, a new entry in
   * front, and the first `MaxRecent` entries kept.
   */
  function Touch(recent: seq<RecentTemplate>, id: string, now: string): (r: seq<RecentTemplate>)
    ensures 1 <= |r| <= MaxRecent
    ensures r[0] == RecentTemplate(id, now)
  {
    var all := [RecentTemplate(id, now)] + Filter(recent, OtherEntry(id));
    if |all| <= MaxRecent then all else all[..MaxRecent]
  }

  /**
   * After `add(id)` the id occurs once, in front; the other entries are
   * entries of the old list in their old order, namely the newest entries of
   * other ids, and below the cap none of them was dropped.
   */
  lemma TouchSpec(recent: seq<RecentTemplate>, id: string, now: string)
    ensures var r := Touch(recent, id, now);
      && (forall i :: 1 <= i < |r| ==> r[i].templateId != id)
      && IsSubsequence(r[1..], recent)
      && r[1..] == Filter(recent, OtherEntry(id))[..|r| - 1]
      && (|r| == MaxRecent || forall x :: x in recent && x.templateId != id ==> x in r)
  {
    var r := Touch(recent, id, now);
    var kept := Filter(recent, OtherEntry(id));
    FilterSubsequence(recent, OtherEntry(id));
    assert r[1..] == kept[..|r| - 1];
    SubsequencePrefix(kept, recent, |r| - 1);
    assert forall i :: 1 <= i < |r| ==> r[i] == kept[i - 1];
    assert |r| < MaxRecent ==> r == [r[0]] + kept;
  }

  /** No entry of `recent` carries `id`. */
  predicate NoEntryFor(recent: seq<RecentTemplate>, id: string)
  {
    forall x :: x in recent ==> x.templateId != id
  }

  /** No two entries of the recent list carry the same id: each differs from all later ones. */
  predicate UniqueIds(recent: seq<RecentTemplate>)
  {
    |recent| == 0 || (NoEntryFor(recent[1..], recent[0].templateId) && UniqueIds(recent[1..]))
  }

  /** Adding keeps the ids of the recent list distinct. */
  lemma TouchUnique(recent: seq<RecentTemplate>, id: string, now: string)
    requires UniqueIds(recent)
    ensures UniqueIds(Touch(recent, id, now))
  {
    var r := Touch(recent, id, now);
    var kept := Filter(recent, OtherEntry(id));
    FilterUnique(recent, id);
    UniquePrefix(kept, |r| - 1);
    assert r[1..] == kept[..|r| - 1];
    assert NoEntryFor(kept, id);
  }

  lemma {:induction false} FilterUnique(recent: seq<RecentTemplate>, id: string)
    requires UniqueIds(recent)
    ensures UniqueIds(Filter(recent, OtherEntry(id)))
  {
    if |recent| > 0 {
      var head, rest := recent[0], recent[1..];
      FilterUnique(rest, id);
      var f := Filter(rest, OtherEntry(id));
      if head.templateId != id {
        assert Filter(recent, OtherEntry(id)) == [head] + f;
        assert ([head] + f)[1..] == f;
        assert NoEntryFor(f, head.templateId);
      } else {
        assert Filter(recent, OtherEntry(id)) == f;
      }
    }
  }

  lemma {:induction false} UniquePrefix(recent: seq<RecentTemplate>, n: nat)
    requires UniqueIds(recent) && n <= |recent|
    ensures UniqueIds(recent[..n])
  {
    if n > 0 {
      UniquePrefix(recent[1..], n - 1);
      assert recent[..n][1..] == recent[1..][..n - 1];
    }
  }

  lemma TouchTwice(recent: seq<RecentTemplate>, id: string, earlier: string, now: string)
    ensures Touch(Touch(recent, id, earlier), id, now) == Touch(recent, id, now)
  {
    var once := Touch(recent, id, earlier);
    var a, b := Touch(once, id, now), Touch(recent, id, now);
    assert a[1..] == b[1..] by {
      TouchTail(recent, id, earlier);
      TouchTail(recent, id, now);
      TouchTail(once, id, now);
      TouchDropsOwnEntry(recent, id, earlier);
      assert once[1..][..|once| - 1] == once[1..];
    }
    assert a == [a[0]] + a[1..] && b == [b[0]] + b[1..];
  }

  /** Filtering an id out of the list `add(id)` made leaves the entries behind the new one. */
  lemma TouchDropsOwnEntry(recent: seq<RecentTemplate>, id: string, now: string)
    ensures var r := Touch(recent, id, now);
      Filter(r, OtherEntry(id)) == r[1..]
  {
    var r := Touch(recent, id, now);
    TouchSpec(recent, id, now);
    assert forall i :: 0 <= i < |r[1..]| ==> r[1..][i] == r[i + 1];
    FilterAll(r[1..], OtherEntry(id));
    assert r == [r[0]] + r[1..];
  }

  /** Behind the new entry, `add` keeps the first entries of other ids, up to the cap. */
  lemma TouchTail(recent: seq<RecentTemplate>, id: string, now: string)
    ensures var kept := Filter(recent, OtherEntry(id));
      Touch(recent, id, now)[1..] == kept[..if |kept| < MaxRecent - 1 then |kept| else MaxRecent - 1]
  {
  }

  // ---------------------------------------------------------------------------
  // Derived views
  // ---------------------------------------------------------------------------

  predicate Starred(t: Template)
  {
    t.starred
  }

  /** The sort key of `(a, b) => b.usageCount - a.usageCount`: most used first. */
  function Popularity(t: Template): int
  {
    -t.usageCount
  }

  /**
   * `starredTemplates`: the starred templates, most used first; templates with
   * equal usage counts keep their relative order (the sort is stable).
   */
  function StarredTemplates(ts: seq<Template>): (r: seq<Template>)
    ensures forall i :: 0 <= i < |r| ==> r[i].starred
    ensures forall i, j :: 0 <= i < j < |r| ==> r[i].usageCount >= r[j].usageCount
    ensures forall t :: multiset(r)[t] == if t.starred then multiset(ts)[t] else 0
    ensures forall k :: KeyClass(r, Popularity, k) == KeyClass(Filter(ts, Starred), Popularity, k)
  {
    var starred := Filter(ts, Starred);
    var r := SortBy(starred, Popularity);
    StarredCounts(ts, r);
    StarredOnly(starred, r);
    MostUsedFirst(r);
    r
  }

  lemma StarredCounts(ts: seq<Template>, r: seq<Template>)
    requires multiset(r) == multiset(Filter(ts, Starred))
    ensures forall t :: multiset(r)[t] == if t.starred then multiset(ts)[t] else 0
  {
    FilterMultiset(ts, Starred);
  }

  lemma StarredOnly(starred: seq<Template>, r: seq<Template>)
    requires forall i :: 0 <= i < |starred| ==> starred[i].starred
    requires multiset(r) == multiset(starred)
    ensures forall i :: 0 <= i < |r| ==> r[i].starred
  {
    forall i | 0 <= i < |r| ensures r[i].starred {
      assert r[i] in multiset(starred);
      var k :| 0 <= k < |starred| && starred[k] == r[i];
    }
  }

  lemma MostUsedFirst(r: seq<Template>)
    requires SortedBy(r, Popularity)
    ensures forall i, j :: 0 <= i < j < |r| ==> r[i].usageCount >= r[j].usageCount
  {
    forall i, j | 0 <= i < j < |r| ensures r[i].usageCount >= r[j].usageCount {
      assert Popularity(r[i]) <= Popularity(r[j]);
    }
  }

  function Known(ts: seq<Template>): string -> bool
  {
    (id: string) => FindById(ts, id).Some?
  }

  /**
   * `recentTemplates`: each recent entry looked up by id, in recent order,
   * entries whose template is gone dropped.
   */
  function RecentTemplates(ts: seq<Template>, recent: seq<RecentTemplate>): (r: seq<Template>)
    ensures |r| <= |recent|
    ensures forall i :: 0 <= i < |r| ==> FindById(ts, r[i].id) == Some(r[i])
    ensures Ids(r) == Filter(RecentIds(recent), Known(ts))
  {
    if |recent| == 0 then []
    else
      var rest := RecentTemplates(ts, recent[1..]);
      RecentIdsStep(ts, recent);
      match FindById(ts, recent[0].templateId)
      case Some(t) =>
        IdsCons(t, rest);
        [t] + rest
      case None => rest
  }

  lemma IdsCons(t: Template, ts: seq<Template>)
    ensures Ids([t] + ts) == [t.id] + Ids(ts)
  {
    var a, b := Ids([t] + ts), [t.id] + Ids(ts);
    forall i | 0 <= i < |a| ensures a[i] == b[i] {
      if i > 0 {
        assert ([t] + ts)[i] == ts[i - 1];
      }
    }
  }

  lemma RecentIdsStep(ts: seq<Template>, recent: seq<RecentTemplate>)
    requires |recent| > 0
    ensures Filter(RecentIds(recent), Known(ts))
         == (if Known(ts)(recent[0].templateId) then [recent[0].templateId] else [])
            + Filter(RecentIds(recent[1..]), Known(ts))
  {
    assert RecentIds(recent[1..]) == RecentIds(recent)[1..];
  }

  // ---------------------------------------------------------------------------
  // The stores
  // ---------------------------------------------------------------------------

  /** The writable template store; `templates` is its current value. */
  class TemplateStore {
    var templates: seq<Template>

    constructor(initial: seq<Template>)
      ensures templates == initial
    {
      templates := initial;
    }

    /** `create`: appends the new template and returns its id. */
    method Create(d: Draft, id: string, created: string, updated: string) returns (newId: string)
      modifies this
      ensures templates == old(templates) + [NewTemplate(d, id, created, updated)]
      ensures newId == id
    {
      templates := templates + [NewTemplate(d, id, created, updated)];
      newId := id;
    }

    method Update(id: string, u: TemplateUpdate, now: string)
      modifies this
      ensures templates == UpdateById(old(templates), id, u, now)
    {
      templates := UpdateById(templates, id, u, now);
    }

    method Delete(id: string)
      modifies this
      ensures templates == DeleteById(old(templates), id)
    {
      templates := DeleteById(templates, id);
    }

    method ToggleStar(id: string, now: string)
      modifies this
      ensures templates == ToggleStarById(old(templates), id, now)
    {
      templates := ToggleStarById(templates, id, now);
    }

    method IncrementUsageCount(id: string)
      modifies this
      ensures templates == IncrementUsageById(old(templates), id)
    {
      templates := IncrementUsageById(templates, id);
    }

    /** `duplicate`: appends a copy of the first template with `id`; a missing id changes nothing. */
    method Duplicate(id: string, newId: string, created: string, updated: string) returns (r: Option<string>)
      modifies this
      ensures FindById(old(templates), id).None? ==> r.None? && templates == old(templates)
      ensures FindById(old(templates), id).Some? ==>
        && r == Some(newId)
        && templates == old(templates) + [Copy(FindById(old(templates), id).value, newId, created, updated)]
    {
      var found := FindById(templates, id);
      if found.None? {
        return None;
      }
      templates := templates + [Copy(found.value, newId, created, updated)];
      r := Some(newId);
    }

    /** `getCategories`: the truthy categories gathered into a set, then sorted. */
    method GetCategories() returns (r: seq<string>)
      ensures StrSorted(r) && Distinct(r)
      ensures forall c :: c in r <==> c in Categories(templates)
    {
      var seen: seq<string> := [];
      for k := 0 to |templates|
        invariant Distinct(seen)
        invariant forall c :: c in seen <==> c in Categories(templates[..k])
      {
        var t := templates[k];
        assert templates[..k + 1] == templates[..k] + [t];
        if t.category.Some? && t.category.value != "" && t.category.value !in seen {
          seen := seen + [t.category.value];
        }
      }
      assert templates[..|templates|] == templates;
      r := SortStrings(seen);
      DistinctPermutation(seen, r);
      assert forall c :: c in r <==> c in multiset(seen);
    }
  }

  /** The writable recent-templates store; `recent` is its current value. */
  class RecentStore {
    var recent: seq<RecentTemplate>

    constructor(initial: seq<RecentTemplate>)
      ensures recent == initial
    {
      recent := initial;
    }

    method Add(templateId: string, now: string)
      modifies this
      ensures recent == Touch(old(recent), templateId, now)
    {
      recent := Touch(recent, templateId, now);
    }

    method Clear()
      modifies this
      ensures recent == []
    {
      recent := [];
    }
  }
}

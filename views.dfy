/**
 * The recipe and tag view sets: what each caller may see, in which order,
 * and which serializer an action uses.
 */
module Views {
  import opened Strings
  import opened Models

  /** The ids below `n` of the entries of `m` that satisfy `keep`, highest id first. */
  function IdsDescending<T>(m: map<nat, T>, keep: T -> bool, n: nat): (r: seq<nat>)
    ensures forall id :: id in r <==> id < n && id in m && keep(m[id])
    ensures forall i, j :: 0 <= i < j < |r| ==> r[i] > r[j]
  {
    if n == 0 then []
    else
      var rest := IdsDescending(m, keep, n - 1);
      if n - 1 in m && keep(m[n - 1]) then
        assert forall j :: 0 <= j < |rest| ==> rest[j] in rest;
        [n - 1] + rest
      else rest
  }

  /** A strictly descending sequence holds every id at most once. */
  lemma {:induction false} DescendingHasNoDuplicates(s: seq<nat>)
    requires forall i, j :: 0 <= i < j < |s| ==> s[i] > s[j]
    ensures forall id :: multiset(s)[id] <= 1
  {
    if s != [] {
      DescendingHasNoDuplicates(s[1..]);
      assert s == [s[0]] + s[1..];
      assert s[0] !in s[1..];
    }
  }

  /**
   * `RecipeViewSet.get_queryset`: the caller's recipes among ids below
   * `bound` (the store's next id), ordered by id descending.
   */
  function RecipeQueryset(recipes: map<RecipeId, Recipe>, caller: UserId, bound: nat): (r: seq<RecipeId>)
    ensures forall id :: id in r <==> id < bound && id in recipes && recipes[id].user == caller
    ensures forall i, j :: 0 <= i < j < |r| ==> r[i] > r[j]
  {
    IdsDescending(recipes, (x: Recipe) => x.user == caller, bound)
  }

  /** Every id of `s` names a tag, and their names never increase along `s`. */
  predicate NamesDescending(tags: map<TagId, Tag>, s: seq<TagId>)
  {
    && (forall i :: 0 <= i < |s| ==> s[i] in tags)
    && (forall i, j :: 0 <= i < j < |s| ==> LexLeq(tags[s[j]].name, tags[s[i]].name))
  }

  lemma InsertFrontSorted(tags: map<TagId, Tag>, x: TagId, s: seq<TagId>)
    requires x in tags && NamesDescending(tags, s)
    requires s == [] || LexLeq(tags[s[0]].name, tags[x].name)
    ensures NamesDescending(tags, [x] + s)
  {
    var r := [x] + s;
    forall j | 1 <= j < |r|
      ensures LexLeq(tags[r[j]].name, tags[x].name)
    {
      if j > 1 {
        LexLeqTransitive(tags[s[j - 1]].name, tags[s[0]].name, tags[x].name);
      }
    }
  }

  lemma InsertBehindSorted(tags: map<TagId, Tag>, x: TagId, s: seq<TagId>, rest: seq<TagId>)
    requires x in tags && NamesDescending(tags, s) && s != []
    requires !LexLeq(tags[s[0]].name, tags[x].name)
    requires NamesDescending(tags, rest) && multiset(rest) == multiset(s[1..]) + multiset{x}
    ensures NamesDescending(tags, [s[0]] + rest)
  {
    LexLeqTotal(tags[s[0]].name, tags[x].name);
    forall k | 0 <= k < |rest|
      ensures LexLeq(tags[rest[k]].name, tags[s[0]].name)
    {
      var y := rest[k];
      assert y in multiset(rest);
      if y != x {
        assert y in multiset(s[1..]);
        var m :| 0 <= m < |s[1..]| && s[1..][m] == y;
        assert s[m + 1] == y;
      }
    }
  }

  /** Inserts tag `x` into a name-descending sequence, keeping it name-descending. */
  function InsertByName(tags: map<TagId, Tag>, x: TagId, s: seq<TagId>): (r: seq<TagId>)
    requires x in tags && NamesDescending(tags, s)
    ensures multiset(r) == multiset(s) + multiset{x}
    ensures NamesDescending(tags, r)
  {
    if s == [] || LexLeq(tags[s[0]].name, tags[x].name) then
      InsertFrontSorted(tags, x, s);
      [x] + s
    else
      var rest := InsertByName(tags, x, s[1..]);
      assert s == [s[0]] + s[1..];
      InsertBehindSorted(tags, x, s, rest);
      [s[0]] + rest
  }

  /** `order_by("-name")`: a name-descending arrangement of the same tags. */
  function SortByNameDescending(tags: map<TagId, Tag>, s: seq<TagId>): (r: seq<TagId>)
    requires forall i :: 0 <= i < |s| ==> s[i] in tags
    ensures multiset(r) == multiset(s)
    ensures NamesDescending(tags, r)
  {
    if s == [] then []
    else
      assert s == [s[0]] + s[1..];
      InsertByName(tags, s[0], SortByNameDescending(tags, s[1..]))
  }

  /**
   * `TagViewSet.get_queryset`: every tag of the caller among ids below
   * `bound`, once each, ordered by name descending.
   */
  function TagQueryset(tags: map<TagId, Tag>, caller: UserId, bound: nat): (r: seq<TagId>)
    ensures forall id :: id in r <==> id < bound && id in tags && tags[id].user == caller
    ensures forall id :: multiset(r)[id] <= 1
    ensures NamesDescending(tags, r)
  {
    var owned := IdsDescending(tags, (t: Tag) => t.user == caller, bound);
    DescendingHasNoDuplicates(owned);
    var r := SortByNameDescending(tags, owned);
    assert forall id :: id in r <==> id in multiset(owned);
    r
  }

  /** The view set actions of a model view set. */
  datatype Action = List | Create | Retrieve | Update | PartialUpdate | Destroy

  /** The two recipe serializers: the short list form and the detail form. */
  datatype Serializer = RecipeSerializer | RecipeDetailSerializer

  /** `get_serializer_class`: the short form for listing, the detail form otherwise. */
  function SerializerFor(action: Action): (s: Serializer)
    ensures s == RecipeSerializer <==> action == List
  {
    if action == List then RecipeSerializer else RecipeDetailSerializer
  }

  /** The `Meta.fields` of each serializer. */
  function SerializerFields(s: Serializer): (fields: seq<string>)
    ensures "user" !in fields
    ensures "id" in fields && "tags" in fields
    ensures "description" in fields <==> s == RecipeDetailSerializer
  {
    var short := ["id", "title", "time_minutes", "price", "link", "tags"];
    match s
    case RecipeSerializer => short
    case RecipeDetailSerializer => short + ["description"]
  }

  /** The name under which a recipe field travels in a payload. */
  function FieldName(f: Field): string
  {
    match f
    case Title => "title"
    case Description => "description"
    case TimeMinutes => "time_minutes"
    case Price => "price"
    case Link => "link"
  }

  /** The detail form is the short form plus the description. */
  lemma DetailExtendsShort()
    ensures SerializerFields(RecipeDetailSerializer) == SerializerFields(RecipeSerializer) + ["description"]
  {
  }

  /**
   * Every writable field appears in the serializer that create and update use,
   * and the owner is never one of them; so the owner cannot be written.
   */
  lemma WritableFields(f: Field, a: Action)
    requires a != List
    ensures FieldName(f) in SerializerFields(SerializerFor(a))
    ensures FieldName(f) != "user"
  {
  }
}

/**
 * Recipe writes: the recipe serializer's create and update with their tag
 * get-or-create reconciliation, and the recipe view set's create, retrieve,
 * update, delete and list actions over an in-memory recipe and tag table.
 */
module Recipes {
  import opened Common
  import opened Strings
  import opened Models
  import opened Views

  datatype RequestError =
    | NotAuthenticated           // the request carries no authenticated user
    | NotFound                   // the recipe is not in the caller's queryset
    | Invalid(fields: set<Field>) // the payload fails validation on these fields

  /**
   * `after` is `before` with every entry of `data` assigned onto it: supplied
   * fields take the supplied value, all others, the owner and the tags are kept.
   */
  predicate AssignedFrom(before: Recipe, data: map<Field, Value>, after: Recipe)
  {
    && after.user == before.user
    && after.tags == before.tags
    && forall f :: Get(after, f) == if f in data then data[f] else Get(before, f)
  }

  /** The loop of `update` that assigns each validated attribute with setattr. */
  method AssignFields(recipe: Recipe, data: map<Field, Value>) returns (r: Recipe)
    requires forall f :: f in data ==> Fits(f, data[f])
    ensures AssignedFrom(recipe, data, r)
  {
    r := recipe;
    var pending := data.Keys;
    while pending != {}
      invariant pending <= data.Keys
      invariant r.user == recipe.user && r.tags == recipe.tags
      invariant forall f :: Get(r, f) == if f in data && f !in pending then data[f] else Get(recipe, f)
      decreases pending
    {
      var f :| f in pending;
      r := SetAttr(r, f, data[f]);
      pending := pending - {f};
    }
  }

  /** The record `Recipe.objects.create` starts from: blank text fields, no tags. */
  function Blank(owner: UserId): Recipe
  {
    Recipe(owner, "", "", 0, 0, "", {})
  }

  /** A payload without invalid fields assigns only values of the right shape. */
  lemma ValidDataFits(data: map<Field, Value>, partial: bool)
    requires InvalidFields(data, partial) == {}
    ensures forall f :: f in data ==> ValidValue(f, data[f]) && Fits(f, data[f])
  {
    forall f | f in data
      ensures ValidValue(f, data[f])
    {
      assert f !in InvalidFields(data, partial);
    }
  }

  /** A recipe created from a payload that passes full validation satisfies every field constraint. */
  lemma CreatedRecipeValid(owner: UserId, data: map<Field, Value>, r: Recipe)
    requires InvalidFields(data, false) == {}
    requires AssignedFrom(Blank(owner), data, r)
    ensures ValidRecipe(r)
  {
    ValidDataFits(data, false);
    forall f
      ensures ValidValue(f, Get(r, f))
    {
      if f !in data {
        assert f !in InvalidFields(data, false);
      }
    }
  }

  /** Updating a valid recipe with a payload that passes validation keeps it valid. */
  lemma UpdatedRecipeValid(before: Recipe, data: map<Field, Value>, partial: bool, after: Recipe)
    requires ValidRecipe(before)
    requires InvalidFields(data, partial) == {}
    requires AssignedFrom(before, data, after)
    ensures ValidRecipe(after)
  {
    ValidDataFits(data, partial);
    forall f
      ensures ValidValue(f, Get(after, f))
    {
      assert ValidValue(f, Get(before, f));
    }
  }

  lemma ValidRecipeIgnoresTags(r: Recipe, ts: set<TagId>)
    requires ValidRecipe(r)
    ensures ValidRecipe(r.(tags := ts))
  {
    forall f
      ensures ValidValue(f, Get(r.(tags := ts), f))
    {
      assert Get(r.(tags := ts), f) == Get(r, f);
    }
  }

  function Names(s: seq<string>): set<string>
  {
    set n | n in s
  }

  /** The tag serializer's conversion of each name: surrounding whitespace stripped. */
  function StripNames(names: seq<string>): (r: seq<string>)
    ensures |r| == |names|
    ensures forall i :: 0 <= i < |names| ==> r[i] == Strip(names[i])
  {
    seq(|names|, i requires 0 <= i < |names| => Strip(names[i]))
  }

  /** Two names that differ only in surrounding whitespace are one name after conversion. */
  lemma PaddingVariantsShareName(a: string, b: string)
    requires Strip(a) == Strip(b)
    ensures Names(StripNames([a, b])) == {Strip(a)}
  {
    var r := StripNames([a, b]);
    assert r == [Strip(a), Strip(a)];
  }

  /** No two tags share an owner and a name. */
  predicate TagsUnique(tags: map<TagId, Tag>)
  {
    forall a, b :: a in tags && b in tags && tags[a] == tags[b] ==> a == b
  }

  /** The ids of the tags of `user` whose name is one of `names`. */
  function TagKeys(tags: map<TagId, Tag>, user: UserId, names: set<string>): (r: set<TagId>)
    ensures forall t :: t in r <==> t in tags && tags[t].user == user && tags[t].name in names
  {
    set t | t in tags && tags[t].user == user && tags[t].name in names
  }

  /**
   * With at most one tag per (owner, name) and a tag for every name, there is
   * exactly one tag id per distinct name: a name listed twice counts once.
   */
  lemma {:induction false} TagKeysCount(tags: map<TagId, Tag>, user: UserId, names: set<string>)
    requires TagsUnique(tags)
    requires forall n :: n in names ==> Tag(user, n) in tags.Values
    ensures |TagKeys(tags, user, names)| == |names|
    decreases names
  {
    if names == {} {
      assert TagKeys(tags, user, names) == {};
    } else {
      var n :| n in names;
      var t :| t in tags && tags[t] == Tag(user, n);
      TagKeysCount(tags, user, names - {n});
      assert TagKeys(tags, user, names) == TagKeys(tags, user, names - {n}) + {t};
      assert t !in TagKeys(tags, user, names - {n});
    }
  }

  /** Every tag of `before` is in `after`, unchanged. */
  predicate Extends(before: map<TagId, Tag>, after: map<TagId, Tag>)
  {
    forall t :: t in before ==> t in after && after[t] == before[t]
  }

  /**
   * The tag table after a get-or-create pass over `names` for `user`: old tags
   * are kept, every name has a tag of `user`, and a tag is new only if it
   * belongs to `user`, carries one of the names and had no match before.
   */
  predicate Reconciled(before: map<TagId, Tag>, after: map<TagId, Tag>, user: UserId, names: seq<string>)
  {
    && Extends(before, after)
    && (forall n :: n in names ==> Tag(user, n) in after.Values)
    && (forall t :: t in after && t !in before ==>
          after[t].user == user && after[t].name in names && Tag(user, after[t].name) !in before.Values)
  }

  /** The names of a payload that had no tag of `user` beforehand. */
  function MissingNames(before: map<TagId, Tag>, user: UserId, names: seq<string>): set<string>
  {
    set n | n in names && Tag(user, n) !in before.Values
  }

  /** A reconciliation pass creates exactly one tag per distinct missing name. */
  lemma ReconcileCreatesOnePerMissingName(before: map<TagId, Tag>, after: map<TagId, Tag>,
                                          user: UserId, names: seq<string>)
    requires TagsUnique(after) && Reconciled(before, after, user, names)
    ensures |after.Keys - before.Keys| == |MissingNames(before, user, names)|
  {
    var missing := MissingNames(before, user, names);
    forall t | t in TagKeys(after, user, missing)
      ensures t in after.Keys - before.Keys
    {
    }
    assert after.Keys - before.Keys == TagKeys(after, user, missing);
    TagKeysCount(after, user, missing);
  }

  /** A reconciliation pass adds no tag when every name already has one. */
  lemma ReconcileReuses(before: map<TagId, Tag>, after: map<TagId, Tag>, user: UserId, names: seq<string>)
    requires Reconciled(before, after, user, names)
    requires forall n :: n in names ==> Tag(user, n) in before.Values
    ensures after == before
  {
    assert after.Keys == before.Keys;
  }

  /** Reconciling the same names a second time creates nothing: get-or-create is idempotent. */
  lemma ReconcileTwiceAddsNothing(t0: map<TagId, Tag>, t1: map<TagId, Tag>, t2: map<TagId, Tag>,
                                  user: UserId, names: seq<string>)
    requires Reconciled(t0, t1, user, names) && Reconciled(t1, t2, user, names)
    ensures t2 == t1
  {
    ReconcileReuses(t1, t2, user, names);
  }

  /** After one get-or-create, the matching ids grow by exactly the returned id. */
  lemma TagKeysStep(before: map<TagId, Tag>, after: map<TagId, Tag>, user: UserId,
                    names: set<string>, n: string, id: TagId)
    requires TagsUnique(after) && Extends(before, after)
    requires id in after && after[id] == Tag(user, n)
    requires forall t :: t in after && t !in before ==> t == id
    ensures TagKeys(after, user, names + {n}) == TagKeys(before, user, names) + {id}
  {
  }

  /**
   * Part way through a reconciliation pass over `names`: the table is
   * reconciled for them and the recipe holds its original tags plus theirs.
   */
  predicate Progress(base: map<TagId, Tag>, original: set<TagId>, tags: map<TagId, Tag>,
                     assoc: set<TagId>, user: UserId, names: seq<string>)
  {
    Reconciled(base, tags, user, names) && assoc == original + TagKeys(tags, user, Names(names))
  }

  /** One get-or-create keeps the table reconciled for the names seen so far and the new one. */
  lemma ReconciledStep(base: map<TagId, Tag>, before: map<TagId, Tag>, after: map<TagId, Tag>,
                       user: UserId, prefix: seq<string>, n: string, id: TagId)
    requires Reconciled(base, before, user, prefix)
    requires id in after && after[id] == Tag(user, n)
    requires after == before || (id !in before && Tag(user, n) !in before.Values && after == before[id := Tag(user, n)])
    ensures Reconciled(base, after, user, prefix + [n])
  {
    ExtendsValues(base, before);
    ExtendsValues(before, after);
  }

  /** One get-or-create followed by one add extends the progress by one name. */
  lemma ProgressStep(base: map<TagId, Tag>, original: set<TagId>, before: map<TagId, Tag>, after: map<TagId, Tag>,
                     assoc: set<TagId>, user: UserId, names: seq<string>, i: nat, id: TagId)
    requires i < |names| && Progress(base, original, before, assoc, user, names[..i])
    requires TagsUnique(after) && id in after && after[id] == Tag(user, names[i])
    requires after == before ||
      (id !in before && Tag(user, names[i]) !in before.Values && after == before[id := Tag(user, names[i])])
    ensures Progress(base, original, after, assoc + {id}, user, names[..i + 1])
  {
    var prefix, n := names[..i], names[i];
    assert names[..i + 1] == prefix + [n];
    assert Names(prefix + [n]) == Names(prefix) + {n};
    ReconciledStep(base, before, after, user, prefix, n, id);
    TagKeysStep(before, after, user, Names(prefix), n, id);
  }

  lemma ExtendsValues(before: map<TagId, Tag>, after: map<TagId, Tag>)
    requires Extends(before, after)
    ensures before.Values <= after.Values
  {
    forall v | v in before.Values
      ensures v in after.Values
    {
      var t :| t in before && before[t] == v;
      assert after[t] == v;
    }
  }

  /** The recipe and tag tables. */
  class RecipeStore {
    var recipes: map<RecipeId, Recipe>
    var tags: map<TagId, Tag>
    var nextRecipe: nat
    var nextTag: nat

    ghost predicate Valid()
      reads this
    {
      && (forall id :: id in recipes ==> id < nextRecipe)
      && (forall id :: id in tags ==> id < nextTag)
      && TagsUnique(tags)
      && (forall id :: id in recipes ==> ValidRecipe(recipes[id]))
      && (forall id, t :: id in recipes && t in recipes[id].tags ==> t in tags && tags[t].user == recipes[id].user)
    }

    constructor ()
      ensures Valid()
      ensures recipes == map[] && tags == map[]
    {
      recipes, tags := map[], map[];
      nextRecipe, nextTag := 0, 0;
    }

    /** `Tag.objects.get_or_create(user=user, name=name)`. */
    method GetOrCreateTag(user: UserId, name: string) returns (id: TagId, created: bool)
      requires Valid()
      modifies this`tags, this`nextTag
      ensures Valid()
      ensures id in tags && tags[id] == Tag(user, name)
      ensures created <==> Tag(user, name) !in old(tags).Values
      ensures !created ==> tags == old(tags)
      ensures created ==> id !in old(tags) && tags == old(tags)[id := Tag(user, name)]
    {
      if Tag(user, name) in tags.Values {
        id :| id in tags && tags[id] == Tag(user, name);
        created := false;
      } else {
        id := nextTag;
        tags := tags[id := Tag(user, name)];
        nextTag := nextTag + 1;
        created := true;
      }
    }

    /** `recipe.tags.add(tag)`: set semantics, nothing else changes. */
    method AddTag(rid: RecipeId, id: TagId)
      requires Valid() && rid in recipes && id in tags && tags[id].user == recipes[rid].user
      modifies this`recipes
      ensures Valid()
      ensures recipes.Keys == old(recipes).Keys && recipes[rid] == old(recipes[rid]).(tags := old(recipes[rid].tags) + {id})
      ensures forall r :: r in recipes && r != rid ==> recipes[r] == old(recipes)[r]
    {
      ValidRecipeIgnoresTags(recipes[rid], recipes[rid].tags + {id});
      recipes := recipes[rid := recipes[rid].(tags := recipes[rid].tags + {id})];
    }

    /** `_get_or_create_tags`: get or create a tag of `user` per name and add it to the recipe. */
    method GetOrCreateTags(user: UserId, names: seq<string>, rid: RecipeId)
      requires Valid() && rid in recipes && recipes[rid].user == user
      modifies this`tags, this`nextTag, this`recipes
      ensures Valid()
      ensures Reconciled(old(tags), tags, user, names)
      ensures rid in recipes && recipes == old(recipes)[rid := old(recipes[rid]).(tags := recipes[rid].tags)]
      ensures recipes[rid].tags == old(recipes[rid].tags) + TagKeys(tags, user, Names(names))
      ensures nextRecipe == old(nextRecipe)
    {
      ghost var tags0, recipes0, recipe0 := tags, recipes, recipes[rid];
      var i := 0;
      assert Names(names[..0]) == {};
      while i < |names|
        invariant 0 <= i <= |names|
        invariant Valid() && rid in recipes
        invariant nextRecipe == old(nextRecipe)
        invariant recipes.Keys == recipes0.Keys && recipes[rid] == recipe0.(tags := recipes[rid].tags)
        invariant forall r :: r in recipes && r != rid ==> recipes[r] == recipes0[r]
        invariant Progress(tags0, recipe0.tags, tags, recipes[rid].tags, user, names[..i])
      {
        ghost var before, assoc := tags, recipes[rid].tags;
        var id, created := GetOrCreateTag(user, names[i]);
        ProgressStep(tags0, recipe0.tags, before, tags, assoc, user, names, i, id);
        AddTag(rid, id);
        i := i + 1;
      }
      assert names[..i] == names;
      assert recipes == recipes0[rid := recipe0.(tags := recipes[rid].tags)];
    }

    /** The tag step of `update`: absent names keep the tags; a list clears them and reconciles. */
    method ReplaceTags(user: UserId, id: RecipeId, tagNames: Option<seq<string>>)
      requires Valid() && id in recipes && recipes[id].user == user
      modifies this`tags, this`nextTag, this`recipes
      ensures Valid() && nextRecipe == old(nextRecipe)
      ensures id in recipes && recipes == old(recipes)[id := old(recipes[id]).(tags := recipes[id].tags)]
      ensures tagNames.None? ==> recipes[id].tags == old(recipes[id].tags) && tags == old(tags)
      ensures tagNames.Some? ==>
        && recipes[id].tags == TagKeys(tags, user, Names(tagNames.value))
        && Reconciled(old(tags), tags, user, tagNames.value)
      ensures tagNames == Some([]) ==> recipes[id].tags == {} && tags == old(tags)
    {
      if tagNames.Some? {
        ValidRecipeIgnoresTags(recipes[id], {});
        recipes := recipes[id := recipes[id].(tags := {})];
        GetOrCreateTags(user, tagNames.value, id);
        if tagNames.value == [] {
          ReconcileReuses(old(tags), tags, user, []);
        }
      }
    }

    /** `get_object` for the caller: the recipe if it is in the caller's queryset. */
    function Lookup(caller: Option<UserId>, id: RecipeId): (r: Result<Recipe, RequestError>)
      reads this
      requires Valid()
      ensures r == Err(NotAuthenticated) <==> caller.None?
      ensures r.Ok? <==> caller.Some? && id in recipes && recipes[id].user == caller.value
      ensures r.Ok? ==> r.value == recipes[id]
      ensures caller.Some? && r.Err? ==> r.error == NotFound
    {
      match caller
      case None => Err(NotAuthenticated)
      case Some(user) =>
        if id in RecipeQueryset(recipes, user, nextRecipe) then Ok(recipes[id]) else Err(NotFound)
    }

    /** The list action: the caller's recipes, newest id first. */
    function ListRecipes(caller: Option<UserId>): (r: Result<seq<RecipeId>, RequestError>)
      reads this
      requires Valid()
      ensures r.Err? <==> caller.None?
      ensures r.Err? ==> r.error == NotAuthenticated
      ensures r.Ok? ==> forall id :: id in r.value <==> id in recipes && recipes[id].user == caller.value
      ensures r.Ok? ==> forall i, j :: 0 <= i < j < |r.value| ==> r.value[i] > r.value[j]
    {
      match caller
      case None => Err(NotAuthenticated)
      case Some(user) => Ok(RecipeQueryset(recipes, user, nextRecipe))
    }

    /** The tag list action: each of the caller's tags once, by name descending. */
    function ListTags(caller: Option<UserId>): (r: Result<seq<TagId>, RequestError>)
      reads this
      requires Valid()
      ensures r.Err? <==> caller.None?
      ensures r.Err? ==> r.error == NotAuthenticated
      ensures r.Ok? ==> forall id :: id in r.value <==> id in tags && tags[id].user == caller.value
      ensures r.Ok? ==> forall id :: multiset(r.value)[id] <= 1
      ensures r.Ok? ==> NamesDescending(tags, r.value)
    {
      match caller
      case None => Err(NotAuthenticated)
      case Some(user) => Ok(TagQueryset(tags, user, nextTag))
    }

    /** `RecipeSerializer.create`: the recipe is built from the validated data, then its tags are reconciled. */
    method Create(user: UserId, data: map<Field, Value>, tagNames: seq<string>) returns (id: RecipeId)
      requires Valid() && InvalidFields(data, false) == {}
      modifies this
      ensures Valid()
      ensures id !in old(recipes) && id in recipes
      ensures recipes == old(recipes)[id := recipes[id]]
      ensures recipes[id].user == user
      ensures AssignedFrom(Blank(user), data, recipes[id].(tags := {}))
      ensures recipes[id].tags == TagKeys(tags, user, Names(tagNames))
      ensures Reconciled(old(tags), tags, user, tagNames)
    {
      ValidDataFits(data, false);
      var recipe := AssignFields(Blank(user), data);
      CreatedRecipeValid(user, data, recipe);
      id := nextRecipe;
      recipes := recipes[id := recipe];
      nextRecipe := nextRecipe + 1;
      GetOrCreateTags(user, tagNames, id);
    }

    /**
     * `RecipeSerializer.update`: absent tags keep the associations, a tag list
     * replaces them; every other supplied field is assigned.
     */
    method Update(id: RecipeId, data: map<Field, Value>, tagNames: Option<seq<string>>, partial: bool)
      requires Valid() && id in recipes && InvalidFields(data, partial) == {}
      modifies this
      ensures Valid()
      ensures id in recipes && recipes == old(recipes)[id := recipes[id]]
      ensures AssignedFrom(old(recipes[id]).(tags := recipes[id].tags), data, recipes[id])
      ensures tagNames.None? ==> recipes[id].tags == old(recipes[id].tags) && tags == old(tags)
      ensures tagNames.Some? ==>
        && recipes[id].tags == TagKeys(tags, old(recipes[id].user), Names(tagNames.value))
        && Reconciled(old(tags), tags, old(recipes[id].user), tagNames.value)
      ensures tagNames == Some([]) ==> recipes[id].tags == {} && tags == old(tags)
    {
      ReplaceTags(recipes[id].user, id, tagNames);
      ValidDataFits(data, partial);
      var recipe := AssignFields(recipes[id], data);
      UpdatedRecipeValid(recipes[id], data, partial, recipe);
      recipes := recipes[id := recipe];
    }

    /**
     * The create action: the payload is validated, then `perform_create`
     * saves it through the serializer with the request's user as owner.
     */
    method CreateRecipe(caller: Option<UserId>, data: map<Field, Value>, tagNames: Option<seq<string>>)
      returns (r: Result<RecipeId, RequestError>)
      requires Valid()
      modifies this
      ensures Valid()
      ensures caller.None? ==> r == Err(NotAuthenticated) && unchanged(this)
      ensures caller.Some? && InvalidFields(Clean(data), false) != {} ==>
        r == Err(Invalid(InvalidFields(Clean(data), false))) && unchanged(this)
      ensures caller.Some? && InvalidFields(Clean(data), false) == {} ==>
        && r.Ok? && r.value !in old(recipes) && r.value in recipes
        && recipes == old(recipes)[r.value := recipes[r.value]]
        && recipes[r.value].user == caller.value
        && AssignedFrom(Blank(caller.value), Clean(data), recipes[r.value].(tags := {}))
        && recipes[r.value].tags == TagKeys(tags, caller.value, Names(StripNames(tagNames.GetOr([]))))
        && Reconciled(old(tags), tags, caller.value, StripNames(tagNames.GetOr([])))
    {
      if caller.None? {
        return Err(NotAuthenticated);
      }
      var clean := Clean(data);
      var bad := InvalidFields(clean, false);
      if bad != {} {
        return Err(Invalid(bad));
      }
      var id := Create(caller.value, clean, StripNames(tagNames.GetOr([])));
      r := Ok(id);
    }

    /**
     * The update and partial update actions: the recipe must be in the
     * caller's queryset and the payload must validate before the serializer
     * updates it.
     */
    method UpdateRecipe(caller: Option<UserId>, id: RecipeId, data: map<Field, Value>,
                        tagNames: Option<seq<string>>, partial: bool)
      returns (r: Result<Recipe, RequestError>)
      requires Valid()
      modifies this
      ensures Valid()
      ensures old(Lookup(caller, id)).Err? ==> r == Err(old(Lookup(caller, id)).error) && unchanged(this)
      ensures old(Lookup(caller, id)).Ok? && InvalidFields(Clean(data), partial) != {} ==>
        r == Err(Invalid(InvalidFields(Clean(data), partial))) && unchanged(this)
      ensures old(Lookup(caller, id)).Ok? && InvalidFields(Clean(data), partial) == {} ==>
        && id in recipes && r == Ok(recipes[id])
        && recipes == old(recipes)[id := recipes[id]]
        && AssignedFrom(old(recipes[id]).(tags := recipes[id].tags), Clean(data), recipes[id])
        && (tagNames.None? ==> recipes[id].tags == old(recipes[id].tags) && tags == old(tags))
        && (tagNames.Some? ==>
              && recipes[id].tags == TagKeys(tags, caller.value, Names(StripNames(tagNames.value)))
              && Reconciled(old(tags), tags, caller.value, StripNames(tagNames.value)))
        && (tagNames == Some([]) ==> recipes[id].tags == {} && tags == old(tags))
    {
      var found := Lookup(caller, id);
      if found.Err? {
        return Err(found.error);
      }
      var clean := Clean(data);
      var bad := InvalidFields(clean, partial);
      if bad != {} {
        return Err(Invalid(bad));
      }
      var names := if tagNames.Some? then Some(StripNames(tagNames.value)) else None;
      assert tagNames == Some([]) ==> names == Some([]);
      Update(id, clean, names, partial);
      r := Ok(recipes[id]);
    }

    /** The destroy action: only a recipe in the caller's queryset is removed; tags stay. */
    method DeleteRecipe(caller: Option<UserId>, id: RecipeId) returns (r: Result<RecipeId, RequestError>)
      requires Valid()
      modifies this`recipes
      ensures Valid()
      ensures old(Lookup(caller, id)).Err? ==> r == Err(old(Lookup(caller, id)).error) && recipes == old(recipes)
      ensures old(Lookup(caller, id)).Ok? ==> r == Ok(id) && recipes == old(recipes) - {id}
    {
      var found := Lookup(caller, id);
      if found.Err? {
        return Err(found.error);
      }
      recipes := recipes - {id};
      r := Ok(id);
    }
  }
}

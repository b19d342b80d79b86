/**
 * The persistent entities: users, tags and recipes, and the per-field rules
 * that the model fields impose on what a recipe write may store.
 */
module Models {
  import opened Strings

  type UserId = nat
  type RecipeId = nat
  type TagId = nat

  /** A stored password: either unusable (no password was given) or a digest. */
  datatype Credential = Unusable | Hashed(digest: string)

  datatype User = User(
    email: string,
    name: string,
    password: Credential,
    isActive: bool,
    isStaff: bool,
    isSuperuser: bool)

  /** A tag is identified by its owner together with its name. */
  datatype Tag = Tag(user: UserId, name: string)

  /** A recipe; `price` is in cents and `tags` holds the ids of associated tags. */
  datatype Recipe = Recipe(
    user: UserId,
    title: string,
    description: string,
    timeMinutes: int,
    price: int,
    link: string,
    tags: set<TagId>)

  /** The writable scalar fields of a recipe. The owner is not one of them. */
  datatype Field = Title | Description | TimeMinutes | Price | Link

  /** A field value as the request supplies it: text for character fields, a number for numeric ones. */
  datatype Value = Text(text: string) | Number(number: int)

  /** `max_length` of the title and link character fields. */
  const MaxLength: nat := 255
  /** `max_digits=5, decimal_places=2` allows at most 999.99, that is 99999 cents. */
  const MaxPriceCents: int := 99999
  /** Range of the integer column holding `time_minutes`. */
  const MinInt: int := -0x8000_0000
  const MaxInt: int := 0x7fff_ffff

  /** True when a value has the shape of the field it is assigned to. */
  predicate Fits(f: Field, v: Value)
  {
    match f
    case TimeMinutes | Price => v.Number?
    case _ => v.Text?
  }

  function Get(r: Recipe, f: Field): (v: Value)
    ensures Fits(f, v)
  {
    match f
    case Title => Text(r.title)
    case Description => Text(r.description)
    case TimeMinutes => Number(r.timeMinutes)
    case Price => Number(r.price)
    case Link => Text(r.link)
  }

  /** `setattr(instance, f, v)`: changes field `f` and nothing else. */
  function SetAttr(r: Recipe, f: Field, v: Value): (r': Recipe)
    requires Fits(f, v)
    ensures Get(r', f) == v
    ensures forall g :: g != f ==> Get(r', g) == Get(r, g)
    ensures r'.user == r.user && r'.tags == r.tags
  {
    match f
    case Title => r.(title := v.text)
    case Description => r.(description := v.text)
    case TimeMinutes => r.(timeMinutes := v.number)
    case Price => r.(price := v.number)
    case Link => r.(link := v.text)
  }

  /** The constraints each model field places on a value written to it. */
  predicate ValidValue(f: Field, v: Value)
  {
    Fits(f, v) &&
    match f
    case Title => 0 < |v.text| <= MaxLength
    case Description => true
    case TimeMinutes => MinInt <= v.number <= MaxInt
    case Price => -MaxPriceCents <= v.number <= MaxPriceCents
    case Link => |v.text| <= MaxLength
  }

  /** Fields without a model default must be supplied on create and on full update. */
  predicate Required(f: Field)
  {
    f == Title || f == TimeMinutes || f == Price
  }

  const AllFields: set<Field> := {Title, Description, TimeMinutes, Price, Link}

  /** The fields a payload gets wrong: an invalid value, or a required field missing unless partial. */
  function InvalidFields(data: map<Field, Value>, partial: bool): (bad: set<Field>)
    ensures forall f :: f in bad <==>
      (f in data && !ValidValue(f, data[f])) || (!partial && Required(f) && f !in data)
  {
    set f | f in AllFields && ((f in data && !ValidValue(f, data[f])) || (!partial && Required(f) && f !in data))
  }

  /** The serializer's conversion of a text value: character fields strip surrounding whitespace. */
  function CleanValue(v: Value): (r: Value)
    ensures r.Text? <==> v.Text?
    ensures r.Text? ==> Trimmed(r.text) && |r.text| <= |v.text| && (r.text == [] <==> AllSpace(v.text))
    ensures r.Number? ==> r == v
  {
    match v
    case Text(t) => Text(Strip(t))
    case Number(_) => v
  }

  /** A payload as validation sees it: every text value stripped, numbers kept. */
  function Clean(data: map<Field, Value>): (r: map<Field, Value>)
    ensures r.Keys == data.Keys
    ensures forall f :: f in data ==> r[f] == CleanValue(data[f])
    ensures forall f :: f in data ==> (Fits(f, r[f]) <==> Fits(f, data[f]))
  {
    map f | f in data :: CleanValue(data[f])
  }

  /** Cleaning an already cleaned payload changes nothing. */
  lemma CleanIdempotent(data: map<Field, Value>)
    ensures Clean(Clean(data)) == Clean(data)
  {
    forall f | f in data
      ensures CleanValue(CleanValue(data[f])) == CleanValue(data[f])
    {
      if data[f].Text? {
        StripIdempotent(data[f].text);
      }
    }
  }

  /** A title of nothing but whitespace is blank after cleaning, so it is rejected. */
  lemma BlankTitleRejected(data: map<Field, Value>, partial: bool)
    requires Title in data && data[Title].Text? && AllSpace(data[Title].text)
    ensures Title in InvalidFields(Clean(data), partial)
  {
  }

  /** Every field of a stored recipe satisfies its model constraint. */
  predicate ValidRecipe(r: Recipe)
  {
    forall f :: ValidValue(f, Get(r, f))
  }

  /** The price bound of a stored recipe, in cents. */
  lemma PriceBounded(r: Recipe)
    requires ValidRecipe(r)
    ensures -MaxPriceCents <= r.price <= MaxPriceCents
  {
    assert ValidValue(Price, Get(r, Price));
  }
}

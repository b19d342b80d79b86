# Recipe API core in Dafny

This project models the core of a Django REST recipe API. It has these parts:

- The custom user manager. It creates users and superusers. It normalises the email domain, hashes passwords and applies the field defaults.
- The user serializer. It registers users, updates a profile (an empty password is ignored) and checks credentials when a token is requested.
- The recipe serializers. `create` and `update` run a get-or-create pass over the payload's tags, and each tag found or made is added to the recipe.
- The recipe and tag view sets. Each caller sees only their own rows: recipes newest id first, tags by name descending. Listing uses the short serializer and every other action the detail serializer.

The database becomes two classes:

- `Users.UserStore` holds the user table.
- `Recipes.RecipeStore` holds the recipe and tag tables and the recipe-to-tag relation.

Their methods change these tables in place and keep an invariant (`Valid`). Email addresses are unique. Tags are unique per (owner, name). Every stored recipe passes the model field constraints. Every tag of a recipe exists and belongs to the recipe's owner.

A recipe payload is a map from field to value. Before validation the serializer converts it (`Models.Clean`): each text value loses its surrounding whitespace, and so does each tag name (`Recipes.StripNames`). `Models.InvalidFields` gives the validation result of the converted payload: the set of offending fields, which is empty when the payload is accepted. The constraints come from the model's field declarations, measured after stripping:

- title: 1 to 255 characters, so a title of only whitespace is rejected as blank
- link: at most 255 characters
- time in minutes: fits a 32-bit integer column
- price: integer cents with at most 5 digits, so within ±999.99
- title, time and price are required unless the update is partial

A user payload is converted the same way (`Users.CleanPatch`). `Users.UserInvalidFields` rejects a blank or overlong email or name, a password shorter than 5 or longer than 128 characters, and, unless the update is partial, a missing field. The view-level `Register` and `UpdateProfile` run this validation, together with the unique check on the email, before the serializer, and report every failing field at once. Because an accepted password is never empty, a profile update that supplies a password always sets it.

Files:

- `common.dfy`: `Option` and `Result`.
- `strings.dfy`: ASCII lower-casing, whitespace stripping, last index of a character, lexicographic order.
- `models.dfy`: entities, field access and field validation.
- `users.dfy`: email normalisation, the user store and credential validation.
- `views.dfy`: querysets, their ordering and the choice of serializer.
- `recipes.dfy`: field assignment, tag reconciliation and the recipe store.

Two behaviours of the code are worth stating:

- **Negative prices.** The price field (`DecimalField(max_digits=5, decimal_places=2)`, `app/core/models.py:76`) has no lower bound, so any price from -999.99 to 999.99 is accepted.
- **Email on update.** The profile update assigns the email as given (`app/user/serializers.py:36`), after stripping. Only `create_user` normalises it.

## Model

| member | source | states |
|---|---|---|
| Users.SplitEmail | app/core/models.py:25-27 | splits at the last '@': none without an '@'; otherwise local + "@" + domain gives back the address and the domain has no '@' |
| Users.SplitJoin | app/core/models.py:25-27 | splitting local + "@" + domain (domain without '@') returns exactly that local part and domain |
| Users.NormalizeEmail | app/core/models.py:25-27 | same length; an address without '@' is kept; otherwise the local part is kept and the domain is lower-cased |
| Users.NormalizeEmailNormalizes | app/core/models.py:25-27 | the result has no capital in its domain, and an already normalised address is unchanged |
| Users.NormalizeEmailIdempotent | app/core/models.py:25-27 | normalising twice is the same as normalising once |
| Users.NormalizeEmailIgnoresDomainCase | app/core/models.py:25-27 | two addresses that differ only in the case of the domain are stored alike |
| Users.NormalizeEmailJoined | app/core/models.py:25-27 | local + "@" + domain is stored as local + "@" + lower-cased domain |
| Users.AcceptedPasswordIsNonEmpty | app/user/serializers.py:22 | a password that meets min_length 5 is never empty, so the update's `if password:` always sets it |
| Users.CleanPatch | app/user/serializers.py:16-22 | each supplied field is present after conversion and equals its stripped value; absent fields stay absent |
| Users.UserInvalidFields | app/user/serializers.py:16-22 | email or name is reported exactly when supplied and blank or over 255 characters; password exactly when supplied and outside 5 to 128 characters; any of them when missing and not partial |
| Users.ShortPasswordRejected | app/user/serializers.py:22 | a password under 5 characters after stripping is always reported |
| Users.AddKeepsEmailsUnique | app/core/models.py:52 | adding a user whose email nobody has keeps emails unique |
| Users.ReplaceKeepsEmailsUnique | app/core/models.py:52 | replacing a user with one whose email no other user has keeps emails unique |
| Users.ValidateLogin | app/user/serializers.py:56-71 | an error (authorization) exactly when authentication yields no user; otherwise the attrs keep email and password and gain the user |
| Users.UserStore.MakePassword | app/core/models.py:28 | a given password afterwards matches; no password gives a credential that matches nothing |
| Users.UserStore.CreateUser | app/core/models.py:18-31 | empty email fails and nothing changes; a taken normalised email fails; otherwise exactly one user is added with the normalised email, the hashed password, the given name or "", active by default, not staff and not superuser by default |
| Users.UserStore.CreateSuperuser | app/core/models.py:33-41 | the same errors as create_user; on success one user is added that is staff and superuser, active, named "", with a matching password |
| Users.UserStore.RegisterUser | app/user/serializers.py:24-26 | exactly what create_user promises for the email, password and name |
| Users.UserStore.EmailUniqueErrors | app/core/models.py:52 | the email field's unique check: an email error exactly when the supplied email is held by a stored user (by another user, on update) |
| Users.UserStore.TakenEmailReportedWithOthers | app/user/serializers.py:13-22 | a taken email and a too-short password are both reported in the same failure |
| Users.UserStore.Register | app/user/views.py:14-16 | the failing fields of the cleaned payload, the email's unique check included, are all reported together and nobody is added; otherwise exactly what create_user promises for the cleaned email, password and name, and never a missing-email error |
| Users.UserStore.UpdateProfile | app/user/views.py:23-31 | no caller changes nothing; the failing fields of the cleaned payload, an email another user holds included, are all reported together and nothing changes; otherwise only the caller's record changes, with the cleaned email and name assigned and, when a password is supplied, always a matching new password |
| Users.UserStore.UpdateUser | app/user/serializers.py:30-43 | an email held by another user fails and nothing changes; otherwise only this user changes: supplied email and name are assigned, flags kept, the password kept when absent or empty and replaced by a matching one otherwise |
| Models.Get | app/core/models.py:73-77 | each field's value has that field's shape |
| Models.SetAttr | app/recipe/serializers.py:57 | the assigned field takes the value; every other field, the owner and the tags are unchanged |
| Models.CleanValue | app/recipe/serializers.py:27 | text stays text, stripped (blank exactly when the input was all whitespace); numbers are kept |
| Models.Clean | app/recipe/serializers.py:27 | the same fields, each converted by CleanValue, each keeping its shape |
| Models.CleanIdempotent | app/recipe/serializers.py:27 | converting a converted payload changes nothing |
| Models.BlankTitleRejected | app/core/models.py:73 | a title of only whitespace is always reported as invalid |
| Models.InvalidFields | app/core/models.py:73-77 | a field is reported exactly when its supplied value breaks its column constraint, or it is required, missing and the write is not partial |
| Models.PriceBounded | app/core/models.py:76 | a stored price lies within ±99999 cents |
| Recipes.AssignFields | app/recipe/serializers.py:55-57 | every supplied field takes its supplied value; the other fields, the owner and the tags are kept |
| Recipes.ValidDataFits | app/core/models.py:73-77 | every value of an accepted payload is valid for its field |
| Recipes.CreatedRecipeValid | app/recipe/serializers.py:37-40 | a recipe built from a fully validated payload satisfies every field constraint |
| Recipes.UpdatedRecipeValid | app/recipe/serializers.py:54-60 | assigning a validated payload to a valid recipe keeps it valid |
| Recipes.ValidRecipeIgnoresTags | app/recipe/serializers.py:35 | changing the tag associations does not affect field validity |
| Recipes.StripNames | app/recipe/serializers.py:15 | one converted name per given name, each stripped |
| Recipes.PaddingVariantsShareName | app/recipe/serializers.py:15 | two names that differ only in surrounding whitespace become one name |
| Recipes.TagKeys | app/recipe/serializers.py:33-35 | exactly the ids of the user's tags whose name is among the names |
| Recipes.TagKeysCount | app/recipe/serializers.py:33-35 | with tags unique per (owner, name) and one for every name, there is one matching id per distinct name |
| Recipes.ReconcileCreatesOnePerMissingName | app/recipe/serializers.py:33-35 | a get-or-create pass creates exactly one tag per distinct name that had no tag of the user beforehand |
| Recipes.ReconcileReuses | app/recipe/serializers.py:34 | when every name already has a tag of the user, the pass leaves the tag table unchanged |
| Recipes.ReconcileTwiceAddsNothing | app/recipe/serializers.py:34 | a second pass over the same names creates nothing |
| Recipes.TagKeysStep | app/recipe/serializers.py:34-35 | after one get-or-create, the matching ids grow by exactly the returned tag |
| Recipes.ReconciledStep | app/recipe/serializers.py:34 | one get-or-create extends a reconciled table to one more name |
| Recipes.ProgressStep | app/recipe/serializers.py:33-35 | one loop iteration extends the reconciled prefix and the recipe's tags to one more name |
| Recipes.ExtendsValues | app/recipe/serializers.py:34 | a table that keeps every old entry keeps every old tag value |
| Recipes.RecipeStore.GetOrCreateTag | app/recipe/serializers.py:34 | returns the user's tag with that name; creates one (under a fresh id) exactly when none existed, and otherwise changes nothing |
| Recipes.RecipeStore.AddTag | app/recipe/serializers.py:35 | only that recipe changes, and its tags gain the id |
| Recipes.RecipeStore.GetOrCreateTags | app/recipe/serializers.py:30-35 | the tag table is reconciled for the names and the user; only that recipe changes; its tags become the old tags plus the user's tags with those names |
| Recipes.RecipeStore.ReplaceTags | app/recipe/serializers.py:48-52 | absent tags keep associations and table; a list clears the associations then reconciles, so the recipe holds exactly the user's tags with those names; an empty list leaves no tag and creates none |
| Recipes.RecipeStore.Create | app/recipe/serializers.py:37-43 | one new recipe under a fresh id, owned by the user, with the payload's fields over blank defaults and exactly the tags of the payload's names, the table reconciled |
| Recipes.RecipeStore.Update | app/recipe/serializers.py:46-61 | only that recipe changes: supplied fields assigned, others kept; tags kept when absent and replaced when given |
| Recipes.RecipeStore.Lookup | app/recipe/views.py:25-28 | unauthenticated without a caller; the recipe exactly when it exists and belongs to the caller; otherwise not found |
| Recipes.RecipeStore.ListRecipes | app/recipe/views.py:25-28 | unauthenticated without a caller; otherwise exactly the caller's recipe ids, strictly descending |
| Recipes.RecipeStore.ListTags | app/recipe/views.py:53-55 | unauthenticated without a caller; otherwise exactly the caller's tags, each once, names descending |
| Recipes.RecipeStore.CreateRecipe | app/recipe/views.py:39-41 | no caller, or an invalid cleaned payload (reporting its invalid fields), changes nothing; otherwise the serializer's create with the caller as owner, the cleaned fields and the stripped tag names |
| Recipes.RecipeStore.UpdateRecipe | app/recipe/views.py:25-28 | a recipe outside the caller's queryset, or an invalid cleaned payload, changes nothing and reports why; otherwise the serializer's update with the cleaned fields and stripped tag names, returning the stored recipe |
| Recipes.RecipeStore.DeleteRecipe | app/recipe/views.py:25-28 | a recipe outside the caller's queryset is not removed; otherwise exactly that recipe is removed and tags stay |
| Views.IdsDescending | app/recipe/views.py:28 | exactly the kept ids below the bound, strictly descending |
| Views.DescendingHasNoDuplicates | app/recipe/views.py:28 | a strictly descending id list holds each id at most once |
| Views.RecipeQueryset | app/recipe/views.py:25-28 | exactly the caller's recipes, ordered by id descending |
| Views.InsertFrontSorted | app/recipe/views.py:55 | a name not below the head may be put in front of a name-descending list |
| Views.InsertBehindSorted | app/recipe/views.py:55 | the head of a name-descending list may precede the sorted insertion into its tail |
| Views.InsertByName | app/recipe/views.py:55 | inserting keeps the elements (as a multiset) plus the new one and keeps names descending |
| Views.SortByNameDescending | app/recipe/views.py:55 | a permutation of the input with names descending |
| Views.TagQueryset | app/recipe/views.py:53-55 | exactly the caller's tags, each once, ordered by name descending |
| Views.SerializerFor | app/recipe/views.py:32-37 | the short serializer exactly for listing, the detail serializer for every other action |
| Views.SerializerFields | app/recipe/serializers.py:25-28 | both forms expose id and tags and never the owner; description only in the detail form |
| Views.DetailExtendsShort | app/recipe/serializers.py:64-68 | the detail fields are the short fields plus description |
| Views.WritableFields | app/recipe/views.py:32-37 | every writable recipe field is in the serializer used by create and update, and the owner is not writable |
| Strings.LowerChar | app/core/models.py:25-27 | the result is not a capital; only capitals change; '@' is kept and never produced |
| Strings.Lower | app/core/models.py:25-27 | same length, each character lower-cased |
| Strings.LowerIsLower | app/core/models.py:25-27 | a lower-cased string has no capital, and lower-casing such a string changes nothing |
| Strings.Strip | app/recipe/serializers.py:27 | the default trimming of a character field (here title and link), as DRF's `CharField` does it: the result has no whitespace at either end, is no longer than the input, and is empty exactly when the input is all whitespace |
| Strings.StripPadded | app/recipe/serializers.py:27 | whitespace around a core without whitespace at its ends is exactly what is removed |
| Strings.StripIdempotent | app/recipe/serializers.py:27 | stripping twice is stripping once |
| Strings.LastIndexOf | app/core/models.py:25-27 | none exactly when the character is absent; otherwise an index holding it with no later occurrence |
| Strings.LastIndexOfUnique | app/core/models.py:25-27 | an occurrence with no later one is the last index |
| Strings.LexLeqTotal | app/recipe/views.py:55 | the name order is total |
| Strings.LexLeqTransitive | app/recipe/views.py:55 | the name order is transitive |

## Left out

- Images, ingredients, list filters and the `assigned_only` option are not part of the modelled core.
- Password hashing is an abstract function fixed for the store, so salting is not modelled. `check_password` is equality of digests.
- `authenticate` is a parameter of `Users.ValidateLogin`. The authentication backend, the `is_active` check and token issuance are not part of this model.
- Users.NormalizeEmail: lower-casing is ASCII only. Unicode case folding and the `strip()` before the split are not modelled.
- Strings.Strip: only ASCII whitespace is stripped. Unicode whitespace beyond ASCII is not modelled.
- Models.InvalidFields: numbers are taken after the serializer has parsed them. Parse errors of malformed numbers are not modelled. A number sent for a character field (title, description, link) counts as the wrong shape, whereas `CharField` would accept it as its string form.
- Recipes.StripNames: tag names are stripped but not validated, so a blank or overlong tag name is not rejected. The `Tag` model's field declarations are not part of this model.
- Users.UserStore.UpdateProfile: the user URL configuration (`app/user/urls.py:13-16`) routes only `create/` and `token/`, so the view this method models is not reachable through the URLs shown.
- Users.UserInvalidFields: email format validation is not modelled, only blankness and length.
- Users.ValidateLogin: the email reaching it is taken as already converted by the token serializer's `EmailField`.
- Views.TagQueryset: names are ordered by code point. The database collation is not modelled.
- Users.UserStore.CreateUser: the unique email constraint is modelled as a `DuplicateEmail` result, not as a database exception. An email field's format validation is not modelled.
- Users.UserStore.UpdateUser: the patch is assumed to have passed field validation already; only email uniqueness is checked here. `Users.UserStore.UpdateProfile` runs the field validation first.
- Recipes.RecipeStore.UpdateRecipe: `save()` writes in the model happen at once. Transactions, concurrent requests and partial writes after a failure are not modelled.
- Prices are integer cents. Decimal rounding of input with more than two decimal places is not modelled. Such input is rejected by its field before the model sees it.
- The `Tag` model's definition is not part of this model. A tag is modelled by what the serializers use: its owner and its name.
- URL routing, the admin, the wait-for-database command and the health check are not part of the modelled core.
- Cascading deletion of a user's recipes is not modelled, because users and recipes are kept in separate stores.

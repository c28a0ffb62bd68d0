# Blog API core, modelled in Dafny

This project models the public read side of a Laravel blog API:

- **Envelope.** `BaseController` builds every JSON envelope.
- **Post listings.** `PostController` serves the post listings, the search and the single post. `PageController` has a front page, a post listing and a search of its own. `PageController.Blog`, `PageController.Posts` and `PageController.Search` model these actions with both corrections recorded under "## Findings": `updated_at` is selected, and a `comments` relation is added. As written, every call of them throws at app/Http/Controllers/Api/PageController.php:114. No route in routes/api.php or routes/web.php leads to `PageController`, so its actions run only when called directly.
- **Rendering.** `PostResource` renders one post.
- **Form requests.** `PostRequest`, `PostsRequest` and `SearchRequest` validate the page, page size, search term and filter ids.
- **Post model.** The `Post` model provides three relations and five local scopes. Eloquent regroups each scope's where clauses.
- **Menus.** The `MenuItem` model, `MenuController` and `MenuItemResource` serve a menu's items, each with its direct children.
- **Categories and tags.** `CategoryController` and `TagController` list categories and tags by name and look one up by slug.

How the model is built:

- **Database.** It is a value (`Store.Db`) with one sequence of rows per table. A tag's pivot rows are the `tagIds` of each post.
- **Controller actions** are functions from the database and the request input to a `Response`. A response is a status plus a JSON body.
- **Query builder.** The builder that the `Post` scopes update in place is a class, `Post.PostQuery`. Its `wheres` list is reassigned by each scope method.
- **Where-list semantics.** `Post.Matches` gives the list's SQL meaning: the first boolean is dropped, and AND binds tighter than OR.
- **Ordering.** Orderings are stable insertion sorts.
- **Pagination.** Laravel's length-aware paginator is modelled as `Pagination.Paginate`.
- **Validation.** Laravel's validator is modelled in `Rules`: `required`, `nullable`, `string`, `integer`, `min`, `max` and `exists`, over a normalised input.
- **Inputs.** Validated input is what each action receives. Each action requires that its form request passed, which is what Laravel guarantees before the action runs.

## Model

| member | source | states |
|---|---|---|
| BaseController.SendData | app/Http/Controllers/Api/BaseController.php:30-39 | status is the given code; the body has exactly `success`, `message`, `data`, in that order; success is true and `data` holds exactly the given fields |
| BaseController.SendSuccess | app/Http/Controllers/Api/BaseController.php:44-52 | status is the given code; the body has only `success` (true) and `message`; there is no `data` |
| BaseController.ErrorEnvelope | app/Http/Controllers/Api/BaseController.php:62-75 | success is false and the message is the error; an `errors` key is present exactly when the error list is non-empty, and then holds it |
| BaseController.SendError | app/Http/Controllers/Api/BaseController.php:62-75 | the method returns the error envelope for its error, code and list |
| BaseController.SendNotFound | app/Http/Controllers/Api/BaseController.php:80-83 | status 404, a failed envelope with the given error and no `errors` key |
| BaseController.SendForbidden | app/Http/Controllers/Api/BaseController.php:89-92 | status 403, a failed envelope with the given error |
| BaseController.SendUnauthenticated | app/Http/Controllers/Api/BaseController.php:98-101 | status 401, a failed envelope with the given error |
| BaseController.SendValidationError | app/Http/Controllers/Api/BaseController.php:107-110 | status 422; `errors` holds the given errors when there are any and is absent otherwise |
| BaseController.SendCreated | app/Http/Controllers/Api/BaseController.php:119-126 | success envelope with the given code; an empty message (PHP `empty`: `""` or `"0"`) becomes the `messages.resource_created` key |
| BaseController.SendNoContent | app/Http/Controllers/Api/BaseController.php:131-134 | status 204 with an empty text body and no JSON keys |
| BaseController.Defaults | app/Http/Controllers/Api/BaseController.php:30-126 | the default arguments: 200 and an empty message for data, 201 for created, and the three default error texts |
| Post.TagRows | app/Models/Post.php:42-45 | the attached tags: at most one per pivot id, each existing and named by the pivot, and every pivot id with a tag row appears |
| Post.HasTagIff | app/Models/Post.php:42-45 | a post carries tag `t` exactly when its pivot names `t` and the tag exists |
| Post.AsWrittenCommentsCountUndefined | app/Models/Post.php:26-45 | the relations as declared have no `comments`, so counting comments yields no value (Eloquent throws) |
| Post.CommentsCountDefined | app/Http/Controllers/Api/PageController.php:114 | with a has-many `comments` on `post_id` added, the count is defined and is 0 exactly when no comment names the post |
| Post.MatchesConjunction | app/Models/Post.php:61-94 | a where list joined only by AND after its first entry matches exactly when every condition holds |
| Post.GroupSliceMatches | app/Models/Post.php:61-67 | wrapping a slice that contains an OR into one nested clause does not change what it matches |
| Post.ScopeConjunct | app/Models/Post.php:61-94 | calling a scope whose clauses start with AND matches exactly the rows the earlier clauses and the scope's clauses both match |
| Post.SearchTermConjunct | app/Models/Post.php:61-67 | `searchTerm(t)` narrows to posts whose title or content contains `t`; a falsy term (null, `""`, `"0"`) adds nothing |
| Post.CategoryConjunct | app/Models/Post.php:73-76 | `filterByCategory(c)` narrows to `category_id = c`; a falsy id (null, 0) adds nothing |
| Post.AuthorConjunct | app/Models/Post.php:82-85 | `filterByAuthor(a)` narrows to `user_id = a`; a falsy id adds nothing |
| Post.TagConjunct | app/Models/Post.php:91-94 | `filterByTag(t)` narrows to posts carrying tag `t`; a falsy id adds nothing |
| Post.ScopeNarrows | app/Models/Post.php:61-94 | a scope only removes rows from a query's result |
| Post.WithRelationsShape | app/Models/Post.php:52-55 | `withRelations` loads user, category (with slug) and tags, and keeps the other columns and counts |
| Post.Hydrate | app/Models/Post.php:26-45 | a loaded post holds each relation exactly when the query loaded it; the loaded user, category, tags and comment count are those of the post's rows, the category with its slug only when the query selected it |
| Post.Latest | app/Http/Controllers/Api/PostController.php:30 | `latest()`: a permutation of the rows, newest `created_at` first |
| Post.MostViewed | app/Http/Controllers/Api/PostController.php:49 | `orderByDesc('views')`: a permutation of the rows, most viewed first |
| Post.PostQuery.constructor | app/Http/Controllers/Api/PostController.php:30 | `Post::query()`: no where clauses and no relation loaded |
| Post.PostQuery.Push | app/Models/Post.php:61-94 | appends one where clause and changes nothing else |
| Post.PostQuery.GroupWhereSliceForScope | app/Models/Post.php:61-94 | appends the slice, grouped into one nested clause when it contains an OR |
| Post.PostQuery.AddNewWheresWithinGroup | app/Models/Post.php:61-94 | regroups the clauses before and after the scope call separately |
| Post.PostQuery.FinishScope | app/Models/Post.php:61-94 | the where list becomes the scope-call regrouping of the earlier clauses and the clauses the scope added |
| Post.PostQuery.WithRelations | app/Models/Post.php:52-55 | the where list is unchanged and the loaded relations become those of `withRelations` |
| Post.PostQuery.SearchTerm | app/Models/Post.php:61-67 | the new where list matches a row exactly when the old one does and the term matches title or content |
| Post.PostQuery.FilterByCategory | app/Models/Post.php:73-76 | the new where list matches exactly when the old one does and the category filter holds |
| Post.PostQuery.FilterByAuthor | app/Models/Post.php:82-85 | the new where list matches exactly when the old one does and the author filter holds |
| Post.PostQuery.FilterByTag | app/Models/Post.php:91-94 | the new where list matches exactly when the old one does and the tag filter holds |
| PostResource.WhenLoaded | app/Http/Resources/PostResource.php:113-129 | a relation that was not loaded leaves its key out; a loaded null relation renders null; a loaded row renders through the given mapping |
| PostResource.When | app/Http/Resources/PostResource.php:130 | the value is present exactly when the condition holds |
| PostResource.UserJson | app/Http/Resources/PostResource.php:113-116 | keys `id`, `name` with the user's values |
| PostResource.CategoryJson | app/Http/Resources/PostResource.php:117-121 | keys `id`, `name`, `slug`; the slug is null when it was not selected |
| PostResource.TagJson | app/Http/Resources/PostResource.php:124-128 | keys `id`, `name`, `slug` with the tag's values |
| PostResource.TagsJson | app/Http/Resources/PostResource.php:122-129 | one object per attached tag, in order |
| PostResource.Excerpt | app/Http/Resources/PostResource.php:107 | the tag-stripped content when it has at most 100 characters; otherwise a prefix of the tag-stripped content followed by `...`, at most 103 characters in all; text with no tag that fits is kept as it is |
| PostResource.BaseFields | app/Http/Resources/PostResource.php:103-111 | the nine column fields in order, with their values; `image_url` is null when absent |
| PostResource.ToArray | app/Http/Resources/PostResource.php:100-131 | keys are the nine column keys followed by exactly the loaded relations and the computed count; each present relation has its rendered value |
| PostResource.Collection | app/Http/Controllers/Api/PostController.php:214 | one resource per post, in order |
| PostResource.Resources | app/Http/Controllers/Api/PostController.php:64-65 | the rows of a query with a given shape, rendered one by one in order |
| PostResource.ResourceKeys | app/Http/Resources/PostResource.php:113-130 | `user`, `category`, `tags` and `comments_count` appear exactly when the query loaded or counted them |
| PostResource.UserKeyOnce | app/Http/Resources/PostResource.php:100-131 | the `user` key occurs once, so its value is unique |
| PostResource.CategoryKeyOnce | app/Http/Resources/PostResource.php:100-131 | the `category` key occurs once, so its value is unique |
| PostResource.UserNullIff | app/Http/Resources/PostResource.php:113 | a loaded `user` renders null exactly when the post has no user row |
| PostResource.CategoryNullIff | app/Http/Resources/PostResource.php:117 | a loaded `category` renders null exactly when the post has no category row |
| PostResource.ResourceRelations | app/Http/Resources/PostResource.php:113-130 | in terms of the database: null user or category exactly when the row is missing, the post's tags, and the number of its comments |
| Php.StrLimit | app/Http/Resources/PostResource.php:107 | `Str::limit`: a string within the limit is unchanged; a longer one becomes a prefix followed by `...` |
| Php.StripTagsIdentity | app/Http/Resources/PostResource.php:107 | `strip_tags` leaves text without `<` unchanged |
| Php.ContainsAt | app/Models/Post.php:64-65 | `LIKE '%t%'` holds exactly when `t` occurs at some position |
| Pagination.LastPage | app/Http/Controllers/Api/PostController.php:220 | at least 1, and the smallest page count whose pages hold every row |
| Pagination.ForPage | app/Http/Controllers/Api/PostController.php:209-212 | the page is the slice from offset `(page - 1) * perPage`, at most `perPage` long and full unless it is the last; it is empty exactly when the offset is past the rows |
| Pagination.PagesCover | app/Http/Controllers/Api/PostController.php:209-212 | the pages 1 to the last page, concatenated, are exactly the rows |
| Pagination.PastLastPageEmpty | app/Http/Controllers/Api/PostController.php:209-212 | a page past the last one is empty |
| Pagination.Paginate | app/Http/Controllers/Api/PostController.php:209-212 | total, page size and page are the inputs, and the items are that page of the rows |
| Pagination.PrevPage | app/Http/Controllers/Api/PostController.php:227 | no previous page exactly on page 1; otherwise the page before |
| Pagination.NextPage | app/Http/Controllers/Api/PostController.php:228 | no next page exactly from the last page on; otherwise the page after |
| Pagination.FirstItem | app/Http/Controllers/Api/PageController.php:63-67 | null exactly on an empty page; otherwise the 1-based position of the first row shown |
| Pagination.LastItem | app/Http/Controllers/Api/PageController.php:63-67 | null exactly on an empty page; otherwise the position of the last row shown |
| Pagination.LinksJson | app/Http/Controllers/Api/PostController.php:224-229 | keys `first`, `last`, `prev`, `next`: the URLs of page 1 and of the last page, and the neighbours or null |
| Rules.AsInt | app/Http/Requests/SearchRequest.php:68-72 | a value has an integer reading exactly when it passes `integer`; an integer value reads as itself |
| Rules.Validated | app/Http/Controllers/Api/PostController.php:83 | `validated()` keeps exactly the input keys that have rules, with their values |
| Rules.RequiredStringMax | app/Http/Requests/SearchRequest.php:67 | `required|string|max:n` passes exactly for a non-blank string of at most n characters |
| Rules.NullableIntegerExists | app/Http/Requests/SearchRequest.php:68-70 | `nullable|integer|exists` passes exactly for an absent or null field or an integer naming an existing row |
| Rules.NullableIntegerMin | app/Http/Requests/PostRequest.php:42 | `nullable|integer|min:lo` passes exactly for an absent or null field or an integer of at least lo |
| Rules.NullableIntegerMinMax | app/Http/Requests/PostRequest.php:43 | the same with an upper bound hi |
| PostRequest.Authorize | app/Http/Requests/PostRequest.php:29-32 | every caller is authorised |
| PostRequest.RuleTable | app/Http/Requests/PostRequest.php:39-45 | rules exist for `page` and `per_page` only |
| PostRequest.PassesIff | app/Http/Requests/PostRequest.php:39-45 | validation passes exactly when page is null or an integer of at least 1 and per_page is null or an integer from 1 to 50 |
| PostRequest.EmptyValid | app/Http/Requests/PostRequest.php:39-45 | the empty input passes |
| PostRequest.PageBoundaries | app/Http/Requests/PostRequest.php:42 | a non-numeric page fails; an integer page passes exactly when at least 1 |
| PostRequest.PerPageBoundaries | app/Http/Requests/PostRequest.php:43 | a non-numeric page size fails; an integer one passes exactly from 1 to 50 |
| PostRequest.ValidatedBounds | app/Http/Requests/PostRequest.php:39-45 | after validation the page is at least 1 and the page size (default 15) is from 1 to 50 |
| PostsRequest.Authorize | app/Http/Requests/PostsRequest.php:12-16 | every caller is authorised |
| PostsRequest.RuleTable | app/Http/Requests/PostsRequest.php:23-29 | rules exist for `per_page` and `page` only |
| PostsRequest.PassesIff | app/Http/Requests/PostsRequest.php:23-29 | validation passes exactly when per_page is null or an integer from 1 to 100 and page is null or an integer of at least 1 |
| PostsRequest.EmptyValid | app/Http/Requests/PostsRequest.php:23-29 | the empty input passes |
| PostsRequest.PageBoundaries | app/Http/Requests/PostsRequest.php:27 | a non-numeric page fails; an integer page passes exactly when at least 1 |
| PostsRequest.PerPageBoundaries | app/Http/Requests/PostsRequest.php:26 | a non-numeric page size fails; an integer one passes exactly from 1 to 100 |
| PostsRequest.ValidatedBounds | app/Http/Requests/PostsRequest.php:23-29 | after validation the page is at least 1 and the page size is from 1 to 100 |
| SearchRequest.Authorize | app/Http/Requests/SearchRequest.php:54-57 | every caller is authorised |
| SearchRequest.RuleTable | app/Http/Requests/SearchRequest.php:64-74 | rules exist for `q`, `category`, `author`, `tag`, `page` and `per_page` |
| SearchRequest.PassesIff | app/Http/Requests/SearchRequest.php:64-74 | validation passes exactly when each of the six fields meets its rule, read field by field |
| SearchRequest.ValidatedBounds | app/Http/Requests/SearchRequest.php:64-74 | after validation: a term of at most 100 characters, filter ids that exist, a page of at least 1 and a page size from 1 to 50 |
| SearchRequest.QRequired | app/Http/Requests/SearchRequest.php:67 | a null term and an integer term both fail |
| SearchRequest.QLength | app/Http/Requests/SearchRequest.php:67 | a 101-character term fails and a 100-character term passes |
| SearchRequest.CategoryBoundaries | app/Http/Requests/SearchRequest.php:68 | a null category passes; an integer passes exactly when it is an existing category id |
| SearchRequest.PageBoundaries | app/Http/Requests/SearchRequest.php:71 | a non-numeric page fails; an integer passes exactly when at least 1 |
| SearchRequest.PerPageBoundaries | app/Http/Requests/SearchRequest.php:72 | an integer page size passes exactly from 1 to 50 |
| SearchRequest.TermOnlyValid | app/Http/Requests/SearchRequest.php:64-74 | an input with only a search term is valid |
| PostController.MetaJson | app/Http/Controllers/Api/PostController.php:218-223 | keys `current_page`, `last_page`, `per_page`, `total` with the paginator's values |
| PostController.PaginateAndRespond | app/Http/Controllers/Api/PostController.php:207-231 | 200 with `posts_retrieved`; data `posts`, `meta`, `links` for the requested page (defaults 15 and 1) of the rows |
| PostController.PageBody | app/Http/Controllers/Api/PostController.php:216-229 | data keys `posts`, `meta`, `links` with the rendered page, its meta and its links |
| PostController.PaginatedPage | app/Http/Controllers/Api/PostController.php:209-222 | the page shown is the slice at the page's offset, at most `per_page` long, empty exactly past the rows, and `total` counts all rows |
| PostController.ListingIs | app/Http/Controllers/Api/PostController.php:30 | a listing is a permutation of the matching rows: exactly the posts its where list matches, newest first |
| PostController.Index | app/Http/Controllers/Api/PostController.php:28-33 | the listing of all posts, paginated with the validated input |
| PostController.IndexListsAll | app/Http/Controllers/Api/PostController.php:30 | the unfiltered listing is a permutation of all posts |
| PostController.CategoryEntry | app/Http/Controllers/Api/PostController.php:57-61 | keys `id`, `name`, `posts`: the category's id and name and its latest five posts rendered |
| PostController.PostsByCategoryJson | app/Http/Controllers/Api/PostController.php:51-61 | one entry per category, in table order |
| PostController.Summary | app/Http/Controllers/Api/PostController.php:46-68 | 200 with `blog_retrieved`; data: the latest five, the five most viewed and the posts by category |
| PostController.SummaryBody | app/Http/Controllers/Api/PostController.php:63-67 | data keys in order, each with its list rendered with the relations loaded |
| PostController.LatestFiveAreNewest | app/Http/Controllers/Api/PostController.php:48 | `min(5, n)` posts, newest first, none older than any post left out |
| PostController.MostViewedFiveAreTop | app/Http/Controllers/Api/PostController.php:49 | `min(5, n)` posts, most viewed first, none with fewer views than any post left out |
| PostController.CategoryPostsBelong | app/Http/Controllers/Api/PostController.php:52-54 | at most five posts per category, each of that category |
| PostController.OptionalString | app/Http/Controllers/Api/PostController.php:86 | `$validated['q'] ?? null`: a string exactly when the key holds one |
| PostController.SearchWheresMatch | app/Http/Controllers/Api/PostController.php:85-89 | the chained scopes match a post exactly when the term and every given filter match it |
| PostController.BuildSearchQuery | app/Http/Controllers/Api/PostController.php:85-90 | the in-place scope chain builds the search's where list, and it matches exactly the searched posts |
| PostController.Search | app/Http/Controllers/Api/PostController.php:81-93 | the searched listing, paginated with the validated input |
| PostController.SearchFinds | app/Http/Controllers/Api/PostController.php:81-93 | the search pages through exactly the posts that match the term and every filter, newest first |
| PostController.SearchTermInContent | app/Http/Controllers/Api/PostController.php:86 | a term found only in the content still matches: the OR stays inside the term's group |
| PostController.PostsByCategory | app/Http/Controllers/Api/PostController.php:106-117 | 404 with `category_not_found` exactly when no category has the slug; otherwise that category's posts, paginated |
| PostController.PostsByTag | app/Http/Controllers/Api/PostController.php:130-145 | 404 with `tag_not_found` exactly when no tag has the slug; otherwise the posts carrying it, paginated |
| PostController.PostsByUser | app/Http/Controllers/Api/PostController.php:158-169 | 404 with `user_not_found` exactly when no user has the id; otherwise that user's posts, paginated |
| PostController.FilteredListings | app/Http/Controllers/Api/PostController.php:114-166 | the three filtered listings hold exactly the posts of the category, carrying the tag, or of the user |
| PostController.PostBySlug | app/Http/Controllers/Api/PostController.php:195 | found exactly when some post has the slug, and the one found has it |
| PostController.Show | app/Http/Controllers/Api/PostController.php:193-202 | 404 with `post_not_found` exactly when no post has the slug; otherwise `data` is the post's resource |
| PostController.ShowsPost | app/Http/Controllers/Api/PostController.php:193-202 | a shown post has the requested slug and all three relations |
| PageController.AsWrittenLacksUpdatedAt | app/Http/Controllers/Api/PageController.php:113 | the base query as written leaves `updated_at` out of every row |
| PageController.AsWrittenBlogFails | app/Http/Controllers/Api/PageController.php:17-22 | with any post, the front page as written has a latest post without `updated_at` to format |
| PageController.BaseShapeResources | app/Http/Controllers/Api/PageController.php:111-120 | with `updated_at` selected, each post renders with its `updated_at`, its three relations and its comment count |
| PageController.CategoryPostsResources | app/Http/Controllers/Api/PageController.php:29-35 | the front page's category posts show their category without a slug and have no `tags` key |
| PageController.BlogBody | app/Http/Controllers/Api/PageController.php:44-48 | data keys in order: the latest five, the five most viewed and the posts by category, rendered from the base query |
| PageController.Blog | app/Http/Controllers/Api/PageController.php:17-49 | 200 with `blog_retrieved` and the front page data |
| PageController.PageMeta | app/Http/Controllers/Api/PageController.php:63-67 | keys `current_page`, `from`, `last_page`, `per_page`, `to`, `total` with the paginator's values |
| PageController.PageMetaFromTo | app/Http/Controllers/Api/PageController.php:63-67 | `from` and `to` are the positions of the first and last row shown, null on an empty page |
| PageController.PageBody | app/Http/Controllers/Api/PageController.php:65-69 | data keys `posts`, `meta`, `links`, taken from the resource collection's response |
| PageController.PaginatedResponse | app/Http/Controllers/Api/PageController.php:59-69 | 200 with `posts_retrieved`, showing the requested page of the rows |
| PageController.Posts | app/Http/Controllers/Api/PageController.php:54-70 | the validated paging parameters are usable, and the response shows their page of all posts, newest first |
| PageController.PostsPageSize | app/Http/Controllers/Api/PageController.php:56 | the page size is from 1 to 100 and 15 when none is given |
| PageController.WhenId | app/Http/Controllers/Api/PageController.php:93-95 | a filter applies exactly when its raw validated value is truthy and an integer, and then compares with that integer |
| PageController.SearchWheresMatch | app/Http/Controllers/Api/PageController.php:85-95 | the `when` chain matches a post exactly when the term is in its title or content and it has every id whose raw value is truthy |
| PageController.SearchFinds | app/Http/Controllers/Api/PageController.php:85-97 | the search pages through exactly the matching posts, newest first |
| PageController.WhenIdAgrees | app/Http/Controllers/Api/PageController.php:93-95 | except for "-0" and "+0", testing the raw value and testing its `?int` cast add the same clause |
| PageController.SameWheresAsPostSearch | app/Http/Controllers/Api/PageController.php:85-95 | without a signed-zero filter, the inline `when` chain builds the same where list as the scope chain of the other search |
| PageController.SearchMatchesLikePostSearch | app/Http/Controllers/Api/PageController.php:87-95 | without a signed-zero filter, it matches exactly the posts the other search matches |
| PageController.SignedZeroSearchesDiffer | app/Http/Controllers/Api/PageController.php:93 | with `category` "-0" the other search filters nothing, while this one keeps exactly the posts of category 0 |
| PageController.Search | app/Http/Controllers/Api/PageController.php:75-106 | the validated paging parameters are usable, and the response shows their page of the searched rows |
| PageController.SearchSameRows | app/Http/Controllers/Api/PageController.php:85-97 | without a signed-zero filter, both search endpoints page through the same rows |
| MenuItem.Parent | app/Models/MenuItem.php:34-37 | none for a root item; otherwise found exactly when an item has the parent id, and the one found has it |
| MenuItem.Children | app/Models/MenuItem.php:42-45 | exactly the items whose `parent_id` is this item's id |
| MenuItem.MenuOf | app/Models/MenuItem.php:50-53 | found exactly when a menu has the item's `menu_id`, and the one found has it |
| MenuItem.ParentChildren | app/Models/MenuItem.php:34-45 | with unique ids, an item is among the children of `x` exactly when `x` is its parent |
| MenuItem.WithChildren | app/Http/Controllers/Api/MenuController.php:18 | `with('children')`: the item's children are loaded, each with nothing of its own |
| MenuItemResource.ItemFields | app/Http/Resources/MenuItemResource.php:71-79 | the eight keys in order with the item's values; absent strings and the root's parent render null |
| MenuItemResource.Collection | app/Http/Controllers/Api/MenuController.php:24 | one resource per item, in order |
| MenuItemResource.ToArrayShape | app/Http/Resources/MenuItemResource.php:69-82 | the eight fields, then `items` exactly when the children were loaded, holding their collection |
| MenuItemResource.NoChildrenKey | app/Http/Resources/MenuItemResource.php:80 | the children sit under `items`: no object at any depth has a `children` key |
| MenuController.Items | app/Http/Controllers/Api/MenuController.php:18-21 | a permutation of the menu's items, sorted by position |
| MenuController.ItemsOfMenu | app/Http/Controllers/Api/MenuController.php:18-21 | exactly the items of the menu, each once, with non-decreasing positions |
| MenuController.Nodes | app/Http/Controllers/Api/MenuController.php:18-21 | each listed item with its children loaded |
| MenuController.Index | app/Http/Controllers/Api/MenuController.php:14-26 | 200 with `menu.success_list`; data has only `items`, the rendered list |
| MenuController.ChildrenOneLevel | app/Http/Controllers/Api/MenuController.php:18-24 | each listed item nests its direct children under `items`; a child shows the eight fields and no `items` |
| CategoryController.CategoryJson | app/Http/Controllers/Api/CategoryController.php:36 | keys `id`, `name`, `slug` with the category's values |
| CategoryController.NameOrder | app/Http/Controllers/Api/CategoryController.php:33 | ordering by name is a total preorder |
| CategoryController.ByName | app/Http/Controllers/Api/CategoryController.php:33 | a permutation of the categories, sorted by name |
| CategoryController.CategoriesJson | app/Http/Controllers/Api/CategoryController.php:36 | one object per category, in order |
| CategoryController.Index | app/Http/Controllers/Api/CategoryController.php:31-38 | 200 with `categories_retrieved`; data has only `categories`, all categories by name |
| CategoryController.IndexListsAll | app/Http/Controllers/Api/CategoryController.php:33 | every category is listed, and nothing else |
| CategoryController.Show | app/Http/Controllers/Api/CategoryController.php:70-81 | 404 with `category_not_found` when no category has the slug; otherwise 200 with the first such category |
| CategoryController.ShowFindsSlug | app/Http/Controllers/Api/CategoryController.php:72-80 | fails with 404 exactly when no category has the slug; otherwise shows a category that has it |
| TagController.PivotRows | app/Models/Tag.php:32-37 | the pivot-row count is at least the number of posts carrying the tag |
| TagController.PostsCountIsTaggedPosts | app/Models/Tag.php:32-37 | with no tag repeated on a post, `posts()->count()` is the number of posts carrying the tag |
| TagController.TagJson | app/Http/Resources/TagResource.php:40-48 | keys `id`, `name`, `slug`, `posts_count`; the count is always present and is the tag's pivot-row count |
| TagController.NameOrder | app/Http/Controllers/Api/TagController.php:33 | ordering by name is a total preorder |
| TagController.ByName | app/Http/Controllers/Api/TagController.php:33 | a permutation of the tags, sorted by name |
| TagController.TagsJson | app/Http/Controllers/Api/TagController.php:36 | one object per tag, in order |
| TagController.Index | app/Http/Controllers/Api/TagController.php:31-38 | 200 with `menu.tags_retrieved`; data has only `tags`, all tags by name |
| TagController.IndexListsAll | app/Http/Controllers/Api/TagController.php:33 | every tag is listed, and nothing else |
| TagController.Show | app/Http/Controllers/Api/TagController.php:70-81 | 404 with `tag_not_found` when no tag has the slug; otherwise 200 with the first such tag |
| TagController.ShowFindsSlug | app/Http/Controllers/Api/TagController.php:72-80 | fails with 404 exactly when no tag has the slug; otherwise shows a tag that has it |

## Left out

- Authentication, authorisation middleware, the admin and menu-item write endpoints, and the authentication requests are not part of this model.
- Translation: messages are the translation keys passed to `__()`, not their translated text.
- Rendering a failed form request (the 422 response Laravel sends) is not modelled. Each action requires that its request passed.
- MenuController.Index: requires an existing menu id. The `MenuRequest` that rejects others is not part of this model.
- CategoryResource.php is not part of this model. `CategoryController.CategoryJson` renders `id`, `name` and `slug`, as the resource's test expects.
- URLs are page numbers (`JUrl(n)`), not generated addresses.
- PageController.PageMeta: leaves out the `links` and `path` entries that a resource collection's meta also carries.
- Timestamps render as an opaque `JTime` value. The `Y-m-d H:i` format is not modelled.
- `LIKE` is plain substring search. Case-insensitive collation and the `%` and `_` wildcards inside a term are not modelled.
- Ordering by name compares code points. The database's collation is not modelled.
- Sorts keep equal keys in table order. The ties of the database's sort are not guaranteed to agree.
- `strip_tags` drops everything from a `<` that is not followed by white space up to the next `>`. PHP's handling of quotes inside a tag, of comments and of PHP tags is not modelled.
- `Str::limit` counts every character as one column. Multibyte display width is not modelled.
- The `integer` rule accepts an integer, or a string of decimal digits without a leading zero after an optional sign. Other behaviour of PHP's `FILTER_VALIDATE_INT` is not modelled.
- String input is assumed already trimmed, with blank strings turned into null, as Laravel's input middleware does (`Rules.Normalised`).
- Integers are unbounded. PHP integer overflow is not modelled.
- The `MenuItem` casts (app/Models/MenuItem.php:25-29) are not modelled as operations. No modelled operation reads `is_active` or `is_external`, and `MenuItemResource` renders neither. `position` is stored as an integer already.
- Category and child order: `PostController.PostsByCategoryJson` lists the categories, and `MenuItem.Children` lists an item's children, in table order. Neither `Category::select('id', 'name')->with(...)->get()` nor the `children` relation has an `ORDER BY`, so the database's order is unspecified and may differ.
- Tag order: `Post.TagsOf` lists a post's tags in pivot-row order. The `tags:id,name,slug` eager load has no `ORDER BY`, so the database's order is unspecified and may differ.
- SameWheresAsPostSearch: holds only for filters without a signed zero. For "-0" or "+0" the page search adds a filter that the scopes' `?int` cast drops, as `PageController.SignedZeroSearchesDiffer` shows.
- SearchMatchesLikePostSearch: holds only for filters without a signed zero, for the same reason.
- SearchSameRows: holds only for filters without a signed zero, for the same reason.
- Database errors and I/O are not modelled. So are the JSON encoder's own behaviour and the `Response` object.

## Findings

| source | as written | input that shows it | evidently intended | confidence | as-written member | corrected member |
|---|---|---|---|---|---|---|
| app/Http/Controllers/Api/PageController.php:113 | `basePostQuery` selects nine columns without `updated_at`, while PostResource.php:110 calls `updated_at->format(...)` | a direct call of `blog`, `posts` or `search` on a database with one post, once line 114 is corrected (as written, line 114 throws first) | select `updated_at` too, so each resource has its update time | not executed | PageController.AsWrittenBlogFails | PageController.BaseShapeResources |
| app/Http/Controllers/Api/PageController.php:114 | `withCount('comments')` (also at line 33), but app/Models/Post.php:26-45 declares only `user`, `category` and `tags` | any direct call of `blog`, `posts` or `search`, even with no posts (no route leads to these actions) | a has-many `comments` relation on `post_id`, counted per post | not executed | Post.AsWrittenCommentsCountUndefined | Post.CommentsCountDefined |

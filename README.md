# Panopticon routing and tag administration, modelled in Dafny

Panopticon is the GOV.UK publishing catalogue of artefacts. Each artefact
names the application that renders it and the URL paths and prefixes it
owns. The model covers five parts of it:

- **Routing an artefact** (`RoutableArtefacts`, with the Router API client
  in `Router`). `submit` registers the rendering application as a router
  backend at its plain-HTTP address. It then stages an `add_route` for every
  prefix and then every exact path, and commits. `delete` stages a
  `delete_route` for the same routes and commits. The client is a recorder
  class: every request is appended to a trace, and an oracle decides which
  requests raise. Nothing rescues a failure, so the first request that
  raises ends the operation. Both methods are proved to issue exactly the
  planned requests up to and including the first failure. The plans are
  proved to have the promised order and counts. Over an abstract route
  table, a completed `submit` serves every route from the rendering app, a
  completed `delete` serves none of them, and both are idempotent.
- **Tag administration** (`Tags`). This covers the type and parent the new form
  presets, and how a child tag's id is composed on create. On update, the curated list is stored first, then a
  changed `tag_id` or `parent_id` is refused, then the other attributes are
  applied. Publishing moves a draft to live. A child section's curated list
  has a slug and an ordered list of cleaned artefact ids. The index groups tags under
  their root tags.
- **The slug suggested on the artefact form** (`Slugs`). The pipeline is
  lower-casing, stripping non-word characters, dashing space runs and
  trimming one dash run, with the guard that never overwrites a slug that
  was filled in at page load.
- **The view helpers** (`ApplicationHelper`): the sortable column header and
  the active navigation item.
- **The permissions migration** (`PermissionsMigration`). `up` and `down`
  rewrite every user document in place. `up` after `down` restores every
  user's permissions.

`Support` holds Ruby's nil as `Option` and ActiveSupport's `blank?` on
strings.

## Model

| member | source | states |
|---|---|---|
| Support.Blank | app/models/routable_artefact.rb:51 | has no ensures of its own: it is `blank?` on nil or a String, true for nil, the empty string and ASCII whitespace only |
| Support.Present | app/models/routable_artefact.rb:51 | has no ensures of its own: it is the negation of Support.Blank |
| RoutableArtefacts.FirstNonBlank | app/models/routable_artefact.rb:51 | None exactly when every candidate is blank; otherwise a present candidate with only blank ones before it |
| RoutableArtefacts.ResolveRenderingApp | app/models/routable_artefact.rb:50-52 | the rendering app when non-blank, else the owning app when non-blank, else nil |
| RoutableArtefacts.BackendUrl | app/models/routable_artefact.rb:19 | defined exactly when the force-http lookup of the rendering app succeeds, and then equal to that URL with "/" appended |
| RoutableArtefacts.Paths | app/models/routable_artefact.rb:54-56 | the artefact's paths, or [] when they are nil |
| RoutableArtefacts.Prefixes | app/models/routable_artefact.rb:58-60 | the artefact's prefixes, or [] when they are nil |
| RoutableArtefacts.RouteAdds | app/models/routable_artefact.rb:25-32 | one staged `add_route` per path, in order, with the given type and backend |
| RoutableArtefacts.RouteDeletes | app/models/routable_artefact.rb:37-44 | one staged `delete_route` per path, in order, with the given type |
| RoutableArtefacts.SubmitPlan | app/models/routable_artefact.rb:23-34 | has no ensures of its own; SubmitPlanShape, SubmitPlanBlocks and SubmitPlanCounts state its order and counts |
| RoutableArtefacts.DeletePlan | app/models/routable_artefact.rb:36-46 | has no ensures of its own; DeletePlanShape, DeletePlanBlocks and DeletePlanCounts state its order and counts |
| RoutableArtefacts.SubmitPlanShape | app/models/routable_artefact.rb:23-34 | the submit plan is the backend, then each prefix as a staged "prefix" route to the rendering app, then each path as a staged "exact" route, then the commit |
| RoutableArtefacts.DeletePlanShape | app/models/routable_artefact.rb:36-46 | the delete plan is each prefix as a staged "prefix" deletion, then each path as a staged "exact" deletion, then the commit |
| RoutableArtefacts.SubmitPlanBlocks | app/models/routable_artefact.rb:23-34 | the submit plan cut into its backend, prefix block, path block and commit |
| RoutableArtefacts.DeletePlanBlocks | app/models/routable_artefact.rb:36-46 | the delete plan cut into its prefix block, path block and commit |
| RoutableArtefacts.TouchedRouteAdds | app/models/routable_artefact.rb:25-32 | the staged additions for a list of paths touch exactly one route of the given type per path |
| RoutableArtefacts.TouchedRouteDeletes | app/models/routable_artefact.rb:37-44 | the staged deletions for a list of paths touch exactly one route of the given type per path |
| RoutableArtefacts.ChangesTouchOwnRoutes | app/models/routable_artefact.rb:23-46 | submit and delete each stage changes to exactly the artefact's prefix routes and exact routes |
| RoutableArtefacts.SubmitKeepsOtherRoutes | app/models/routable_artefact.rb:23-34 | applying submit's changes leaves every route the artefact does not own as it was |
| RoutableArtefacts.DeleteKeepsOtherRoutes | app/models/routable_artefact.rb:36-46 | applying delete's changes leaves every route the artefact does not own as it was |
| RoutableArtefacts.CountIfAppend | app/models/routable_artefact.rb:25-33 | counting calls of a kind distributes over concatenation |
| RoutableArtefacts.CountIfUniform | app/models/routable_artefact.rb:25-33 | a block whose calls all are, or all are not, of a kind counts all or none of them |
| RoutableArtefacts.SubmitPlanCounts | app/models/routable_artefact.rb:23-34 | submit makes one backend request, one route request per prefix and per path and one commit, and no request follows the commit |
| RoutableArtefacts.DeletePlanCounts | app/models/routable_artefact.rb:36-46 | delete makes no backend request, one route request per prefix and per path and one commit, which is last |
| RoutableArtefacts.SubmitBackendFirst | app/models/routable_artefact.rb:23-32 | every `add_route` comes after the `add_backend`, targets the rendering app and skips the commit |
| RoutableArtefacts.DeleteNeverAddsBackend | app/models/routable_artefact.rb:36-46 | delete never calls `add_backend`, and every deletion skips the commit |
| RoutableArtefacts.NoRoutesPlans | app/models/routable_artefact.rb:54-60 | with nil or empty paths and prefixes, submit is `add_backend` then commit, and delete is the commit alone |
| RoutableArtefacts.SubmitFailFast | app/models/routable_artefact.rb:23-34 | when a request raises, the requests issued are a prefix of the plan ending in the one that raised, and the commit is issued only if it is the one that raised |
| RoutableArtefacts.DeleteFailFast | app/models/routable_artefact.rb:36-46 | the same fail-fast property for delete |
| RoutableArtefacts.SubmitRun | app/models/routable_artefact.rb:23-34 | a completed submit sets the backend and applies all staged routes at the commit |
| RoutableArtefacts.SubmitServes | app/models/routable_artefact.rb:23-34 | after a completed submit, every prefix and path is routed to the rendering app, the backend points at the URL, and every route outside the artefact's own prefix and exact routes is unchanged |
| RoutableArtefacts.DeleteRun | app/models/routable_artefact.rb:36-46 | a completed delete applies all staged deletions at the commit and keeps the backends |
| RoutableArtefacts.DeleteRemoves | app/models/routable_artefact.rb:36-46 | after a completed delete, none of the artefact's prefixes or paths is routed, the backends are unchanged, and every route outside the artefact's own prefix and exact routes is unchanged |
| RoutableArtefacts.SubmitIdempotent | app/models/routable_artefact.rb:23-34 | submitting twice leaves the router as submitting once does |
| RoutableArtefacts.DeleteIdempotent | app/models/routable_artefact.rb:36-46 | deleting twice leaves the router as deleting once does |
| RoutableArtefacts.RoutableArtefact.RenderingApp | app/models/routable_artefact.rb:50-52 | returns the resolved rendering app and memoises it; a nil result stays uncached |
| RoutableArtefacts.RoutableArtefact.EnsureApplicationExists | app/models/routable_artefact.rb:18-21 | a failed lookup raises before any request; otherwise exactly one `add_backend(rendering_app, url + "/")` is sent, and it succeeds exactly when the client does not raise |
| RoutableArtefacts.RoutableArtefact.SubmitRoutes | app/models/routable_artefact.rb:25-33 | once the backend request has returned: the prefix adds, the path adds and the commit, with the trace growing by exactly the submit plan's requests up to the first that raises and the outcome Done exactly when all complete |
| RoutableArtefacts.RoutableArtefact.StageAdds | app/models/routable_artefact.rb:25-32 | one staged `add_route` per path in order; the trace is the plan up to the first failure |
| RoutableArtefacts.RoutableArtefact.StageDeletes | app/models/routable_artefact.rb:37-44 | one staged `delete_route` per path in order; the trace is the plan up to the first failure |
| RoutableArtefacts.RoutableArtefact.CommitStaged | app/models/routable_artefact.rb:33 | the final commit; the operation completes exactly when every request of the plan returned |
| RoutableArtefacts.RoutableArtefact.Submit | app/models/routable_artefact.rb:23-34 | the trace grows by exactly the submit plan's requests up to and including the first that raises; the outcome is Done exactly when all complete |
| RoutableArtefacts.RoutableArtefact.Delete | app/models/routable_artefact.rb:36-46 | the trace grows by exactly the delete plan's requests up to and including the first that raises; the outcome is Done exactly when all complete |
| Router.Issued | app/models/routable_artefact.rb:23-46 | the requests that reach the client are a prefix of the plan |
| Router.IssuedCompletes | app/models/routable_artefact.rb:23-46 | a plan whose requests all return is issued in full |
| Router.IssuedAppend | app/models/routable_artefact.rb:23-46 | after a completed first part, what follows is issued from where it left the trace |
| Router.CompletesSnoc | app/models/routable_artefact.rb:23-46 | a completed plan extended by one returning request still completes |
| Router.IssuedStopsAtFailure | app/models/routable_artefact.rb:23-46 | once a request raises, nothing after it is issued |
| Router.IssueNext | app/models/routable_artefact.rb:23-46 | issuing the next planned request either extends the completed prefix or ends the operation with the issued requests |
| Router.FirstFailure | app/models/routable_artefact.rb:23-46 | a plan that does not complete has a first request that raises, with everything before it returning |
| Router.CompletesPrefix | app/models/routable_artefact.rb:23-46 | every prefix of a completed plan completes |
| Router.RouterApi.AddBackend | app/models/routable_artefact.rb:20 | records one `add_backend` request |
| Router.RouterApi.AddRoute | app/models/routable_artefact.rb:27 | records one `add_route` request |
| Router.RouterApi.DeleteRoute | app/models/routable_artefact.rb:39 | records one `delete_route` request |
| Router.RouterApi.CommitRoutes | app/models/routable_artefact.rb:33 | records one `commit_routes` request |
| Router.Touched | app/models/routable_artefact.rb:27 | exactly the routes named by the list's route changes: every change's route is in it, and every route in it is named by some change |
| Router.TouchedAppend | app/models/routable_artefact.rb:25-32 | the routes two lists of changes touch together are those each touches |
| Router.ApplyChangesOutside | app/models/routable_artefact.rb:25-33 | routes that no change touches keep their value |
| Router.ApplyChangesDetermined | app/models/routable_artefact.rb:25-33 | the outcome of a batch depends only on the routes it does not touch |
| Router.ApplyChangesIdempotent | app/models/routable_artefact.rb:25-33 | applying a batch twice equals applying it once |
| Router.RunStaged | app/models/routable_artefact.rb:27 | requests with skip_commit only accumulate until a commit |
| Router.RunAppend | app/models/routable_artefact.rb:23-46 | the router's state after two runs of requests in turn is that after their concatenation |
| Router.RunBatch | app/models/routable_artefact.rb:25-33 | staged changes followed by one commit apply the changes |
| Router.ApplyAddsTarget | app/models/routable_artefact.rb:27 | a batch of additions routes every touched key to the backend |
| Router.ApplyDeletesRemove | app/models/routable_artefact.rb:39 | a batch of deletions leaves none of the touched keys |
| Tags.TagParameters | app/controllers/tags_controller.rb:103-113 | the nested `tag` hash when sent; otherwise exactly the root parameters among tag_id, tag_type, title, parent_id and description |
| Tags.TagType | app/controllers/tags_controller.rb:181-183 | the nested hash's tag_type when both are non-nil, else the root `type` |
| Tags.FormObjectFor | app/controllers/tags_controller.rb:172-179 | the specialist-sector form exactly when the tag type is "specialist_sector" |
| Tags.PresetTag | app/controllers/tags_controller.rb:15-25 | the type is set exactly when a `type` parameter is present, and to it; the parent id is set exactly when `type` and `parent_id` are both present, and to `parent_id`; id, title and description stay nil |
| Tags.NewTag | app/controllers/tags_controller.rb:28 | each of the five tag attributes is the value sent, nil when absent, and the tag is in the initial state |
| Tags.ComposeTagId | app/controllers/tags_controller.rb:30-32 | has no ensures of its own; Tags.ComposedTagIdSplits states that the id reads back as parent, "/", child under a present parent and is the sent id otherwise |
| Tags.ComposedTagIdSplits | app/controllers/tags_controller.rb:30-32 | under a present parent the created id is the parent id, "/", then the given tag id; otherwise the id is unchanged |
| Tags.ApplyAttributes | app/controllers/tags_controller.rb:73 | each attribute sent replaces the tag's; the others and the state are kept |
| Tags.ExceptIds | app/controllers/tags_controller.rb:70 | the parameters without tag_id and parent_id, the rest unchanged |
| Tags.UpdateKeepsIds | app/controllers/tags_controller.rb:70-73 | an accepted update never changes tag_id, parent_id or state, and applies every other attribute sent |
| Tags.RefusedField | app/controllers/tags_controller.rb:58-68 | "tag_id" exactly when a differing tag_id is sent; else "parent_id" exactly when a differing parent_id is sent; none exactly when every id sent equals the tag's |
| Tags.UnchangedIdsAccepted | app/controllers/tags_controller.rb:58-73 | when no id is refused, dropping the ids changes nothing in what the update applies |
| Tags.HasParent | app/controllers/tags_controller.rb:169 | has no ensures of its own: `has_parent?` read as a present parent id |
| Tags.CanHaveCuratedList | app/controllers/tags_controller.rb:168-170 | has no ensures of its own: a section with a parent; Tags.TagsController.FindTag states that exactly such tags get a curated list |
| Tags.CuratedListSlug | app/controllers/tags_controller.rb:149 | the tag id with every "/" replaced by "-", character by character |
| Tags.CuratedListSlugIsFlat | app/controllers/tags_controller.rb:149 | a slug has no "/", and slugging it again changes nothing |
| Tags.CuratedListSlugOfChild | app/controllers/tags_controller.rb:149 | the slug of "parent/child" is the parent's slug, "-", then the child's slug |
| Tags.FindOrInitializeCuratedList | app/controllers/tags_controller.rb:148-157 | the stored list under the slug if there is one, else a new list with that slug and the tag as its only section |
| Tags.CleanArtefactIds | app/controllers/tags_controller.rb:160 | an id is kept exactly when it was sent and is not blank |
| Tags.CleanArtefactIdsSnoc | app/controllers/tags_controller.rb:160 | one more id at the end is kept exactly when it is not blank, after what the rest keeps |
| Tags.CleanArtefactIdsAppend | app/controllers/tags_controller.rb:160 | cleaning preserves order: it distributes over concatenation |
| Tags.CleanArtefactIdsKeepsClean | app/controllers/tags_controller.rb:160 | a list without blanks is stored as sent |
| Tags.CleanArtefactIdsIdempotent | app/controllers/tags_controller.rb:160 | cleaning twice equals cleaning once |
| Tags.OfTagTypes | app/controllers/tags_controller.rb:122 | exactly the tags whose type is section or specialist_sector |
| Tags.ChildrenOf | app/controllers/tags_controller.rb:122 | exactly the tags with the given parent id |
| Tags.OfTagTypesSnoc | app/controllers/tags_controller.rb:122 | one more tag at the end is kept exactly when its type is listed, after what the rest keeps |
| Tags.OfTagTypesAppendSnoc | app/controllers/tags_controller.rb:122 | the step of Tags.OfTagTypesAppend: the split still holds with one more tag at the end of the second part |
| Tags.OfTagTypesAppend | app/controllers/tags_controller.rb:122 | filtering by type keeps the order: it distributes over concatenation |
| Tags.ChildrenOfSnoc | app/controllers/tags_controller.rb:122 | one more tag at the end is gathered exactly when its parent id is the key, after what the rest gathers |
| Tags.ChildrenOfAppendSnoc | app/controllers/tags_controller.rb:122 | the step of Tags.ChildrenOfAppend: the split still holds with one more tag at the end of the second part |
| Tags.ChildrenOfAppend | app/controllers/tags_controller.rb:122 | gathering the children of a key keeps the order: it distributes over concatenation |
| Tags.AddToGroup | app/controllers/tags_controller.rb:122 | every existing group keeps its key and place, and at most one new group opens, at the end, holding only the tag; Tags.FindAfterAdd states that the tag joins its parent id's group |
| Tags.GroupByParent | app/controllers/tags_controller.rb:122-125 | there are groups exactly when there are tags |
| Tags.FindGroup | app/controllers/tags_controller.rb:129 | nil exactly when no group has the key; otherwise the members of the first group with that key |
| Tags.FindAfterAdd | app/controllers/tags_controller.rb:122 | adding a tag to the groups extends only the group of its parent id |
| Tags.FindGroupByParent | app/controllers/tags_controller.rb:122-135 | the group found under a key holds exactly the tags with that parent id, in order, and no group exists when there are none |
| Tags.Families | app/controllers/tags_controller.rb:134-141 | one family per root, in order, holding the group under the root's tag id or none |
| Tags.TagsGroupedByParents | app/controllers/tags_controller.rb:121-142 | has no ensures of its own; Tags.TagsGroupedByParentsSpec states the result against the reference Tags.ChildrenOf |
| Tags.TagsGroupedByParentsSpec | app/controllers/tags_controller.rb:121-142 | no listed tags give []; listed tags with no root raise; otherwise one family per root in title order, with exactly its listed children in order |
| Tags.TagsController.FindTag | app/controllers/tags_controller.rb:115-119 | loads the tag, and its curated list exactly when the tag can have one |
| Tags.TagsController.New | app/controllers/tags_controller.rb:15-25 | the tag is Tags.PresetTag of the root parameters and the new form is rendered; nothing else changes |
| Tags.TagsController.Create | app/controllers/tags_controller.rb:27-48 | builds the tag from the parameters with the composed id; saves it exactly when valid; flashes and redirects, or renders, by format |
| Tags.TagsController.UpdateCuratedList | app/controllers/tags_controller.rb:159-162 | stores the sent ids without blanks; missing ids raise |
| Tags.TagsController.Update | app/controllers/tags_controller.rb:53-86 | the curated list is stored before the id checks; a refused id leaves the tag and the store unchanged with a 422 "can't be changed"; otherwise the other attributes are applied and saved exactly when valid |
| Tags.TagsController.Publish | app/controllers/tags_controller.rb:88-96 | a draft becomes live and is saved with a success flash; a live tag is unchanged with an "already live" error; both redirect to the edit page |
| Slugs.LowerChar | app/assets/javascripts/artefacts.js:6 | upper-case ASCII letters move down 32 code points; every other character is kept |
| Slugs.Lower | app/assets/javascripts/artefacts.js:6 | lower-cases each character in place |
| Slugs.Keep | app/assets/javascripts/artefacts.js:7 | keeps exactly the characters that pass the test |
| Slugs.KeepAppend | app/assets/javascripts/artefacts.js:7 | keeping distributes over concatenation |
| Slugs.KeepCons | app/assets/javascripts/artefacts.js:7 | a character in front is kept exactly when it passes the test, ahead of what the rest keeps |
| Slugs.KeepKeep | app/assets/javascripts/artefacts.js:7-8 | keeping by one test and then another keeps by both |
| Slugs.StripNonWord | app/assets/javascripts/artefacts.js:7 | a character is in the result exactly when it is in the input and is a word character or a space; Slugs.KeepAppend gives the order |
| Slugs.DropSpaces | app/assets/javascripts/artefacts.js:8 | the result is no longer than the input, does not start with a space and holds only the input's characters; Slugs.DropSpacesSuffix states that what it removes is exactly the leading run of spaces |
| Slugs.DropSpacesSuffix | app/assets/javascripts/artefacts.js:8 | dropping leading spaces leaves a suffix of the input, and every character removed is a space |
| Slugs.DropSpacesLast | app/assets/javascripts/artefacts.js:8 | when something is left after the leading spaces, the last character of the input is kept |
| Slugs.DropLeading | app/assets/javascripts/artefacts.js:9 | removes exactly the leading run of a character |
| Slugs.DropTrailing | app/assets/javascripts/artefacts.js:9 | removes exactly the trailing run of a character |
| Slugs.DashSpaces | app/assets/javascripts/artefacts.js:8 | no space is left, and every character is a dash or comes from the input; Slugs.DashSpacesRun, Slugs.DashSpacesAppend, Slugs.SpaceRunDash and Slugs.DashSpacesNoSpace place each dash |
| Slugs.TrimDashes | app/assets/javascripts/artefacts.js:9 | the result does not start with a dash; when the input starts with a dash, the result is what follows its whole leading dash run; otherwise it is what precedes its whole trailing dash run, so it does not end with a dash either; Slugs.TrimDashesContent states that only dashes are removed |
| Slugs.Slug | app/assets/javascripts/artefacts.js:6-9 | has no ensures of its own; Slugs.SlugShape, Slugs.SlugContent, Slugs.SlugOfTwoWords, Slugs.SlugOfTrailingSpaces and Slugs.SlugOfLeadingSpaces state what a slug is made of, what it keeps, where its dashes go and that a dash at either end of a single word is trimmed |
| Slugs.DashSpacesShape | app/assets/javascripts/artefacts.js:8 | on a text without dashes: the result holds only dashes and the input's non-space characters, no two dashes side by side, starts with a dash exactly when the input starts with a space, and is empty exactly when the input is |
| Slugs.DropSpacesAppend | app/assets/javascripts/artefacts.js:8 | dropping the leading spaces of a concatenation drops those of its first part, and of the second too when the first is all spaces |
| Slugs.DashSpacesAppend | app/assets/javascripts/artefacts.js:8 | dashing spaces works piece by piece wherever the cut splits no run of spaces |
| Slugs.AppendAfterSpace | app/assets/javascripts/artefacts.js:8 | the same, when the first piece starts with a space |
| Slugs.AppendAfterSpaces | app/assets/javascripts/artefacts.js:8 | the same, when the first piece is all spaces |
| Slugs.DashSpacesWordStep | app/assets/javascripts/artefacts.js:8 | a character other than a space in front passes through, ahead of the dashed rest |
| Slugs.WordStepJoin | app/assets/javascripts/artefacts.js:8 | when dashing splits over a cut, it still does after a non-space character is put in front |
| Slugs.AppendAfterWord | app/assets/javascripts/artefacts.js:8 | the same, when the first piece starts with anything but a space |
| Slugs.DashSpacesNoSpace | app/assets/javascripts/artefacts.js:8 | a text without spaces passes through unchanged |
| Slugs.SpaceRunDash | app/assets/javascripts/artefacts.js:8 | a run of one or more spaces becomes exactly "-" |
| Slugs.DashSpacesRun | app/assets/javascripts/artefacts.js:8 | a maximal run of spaces between two texts becomes exactly one dash, and the texts on either side are dashed on their own |
| Slugs.KeepAll | app/assets/javascripts/artefacts.js:7 | a text whose characters all pass the test is kept whole |
| Slugs.LowerAppend | app/assets/javascripts/artefacts.js:6 | lower-casing a concatenation lower-cases each part |
| Slugs.LowerWord | app/assets/javascripts/artefacts.js:6 | lower-casing keeps word characters word characters |
| Slugs.StripSpacedWords | app/assets/javascripts/artefacts.js:6-7 | words separated by spaces lose nothing to lower-casing and stripping |
| Slugs.TrimDashesNoEndDash | app/assets/javascripts/artefacts.js:9 | a text that neither starts nor ends with a dash is not trimmed |
| Slugs.LowerWordEnds | app/assets/javascripts/artefacts.js:6 | a lower-cased word is non-empty, holds no space and has no dash at either end |
| Slugs.StripWordThenSpaces | app/assets/javascripts/artefacts.js:6-7 | a word followed by spaces loses nothing to lower-casing and stripping but its case |
| Slugs.LowerSpacesThenWord | app/assets/javascripts/artefacts.js:6 | lower-casing leaves a leading run of spaces as it is |
| Slugs.KeepSpacesThenWord | app/assets/javascripts/artefacts.js:7 | stripping keeps a run of spaces followed by word characters whole |
| Slugs.StripSpacesThenWord | app/assets/javascripts/artefacts.js:6-7 | spaces followed by a word lose nothing to lower-casing and stripping but its case |
| Slugs.DashWordThenSpaces | app/assets/javascripts/artefacts.js:8 | a text without spaces followed by a run of spaces gets exactly one trailing dash |
| Slugs.DashSpacesThenWord | app/assets/javascripts/artefacts.js:8 | a run of spaces followed by a text without spaces gets exactly one leading dash |
| Slugs.TrimDashesDropsEndDash | app/assets/javascripts/artefacts.js:9 | one dash after a text that neither starts nor ends with a dash is removed |
| Slugs.TrimDashesDropsStartDash | app/assets/javascripts/artefacts.js:9 | one dash before a text that neither starts nor ends with a dash is removed |
| Slugs.SlugOfTrailingSpaces | app/assets/javascripts/artefacts.js:6-9 | a word followed by any run of spaces gives the word lower-cased, with no trailing dash: "Tax " gives "tax" |
| Slugs.SlugOfLeadingSpaces | app/assets/javascripts/artefacts.js:6-9 | any run of spaces followed by a word gives the word lower-cased, with no leading dash: " Tax" gives "tax" |
| Slugs.SlugOfTwoWords | app/assets/javascripts/artefacts.js:6-9 | two words separated by any run of spaces give the two words lower-cased, joined by exactly one dash |
| Slugs.SliceNoDoubleDash | app/assets/javascripts/artefacts.js:9 | a slice of a text without double dashes has none |
| Slugs.TrimDashesShape | app/assets/javascripts/artefacts.js:9 | trimming leaves no leading dash and adds no double dash |
| Slugs.SlugShape | app/assets/javascripts/artefacts.js:6-9 | a slug holds only lower-case word characters and dashes, no space, no "--", and does not start with "-" |
| Slugs.SlugOfSpacedLetter | app/assets/javascripts/artefacts.js:9 | " a " gives "a-": only the leading dash run is trimmed |
| Slugs.KeepDropSpaces | app/assets/javascripts/artefacts.js:8 | dropping leading spaces loses nothing a space-free view keeps |
| Slugs.DashSpacesContent | app/assets/javascripts/artefacts.js:8 | with dashes removed, dashing spaces is removing spaces |
| Slugs.KeepAllDashes | app/assets/javascripts/artefacts.js:9 | removing the dashes from a text made of dashes only leaves nothing |
| Slugs.TrimDashesContent | app/assets/javascripts/artefacts.js:9 | trimming removes dashes only |
| Slugs.SlugContent | app/assets/javascripts/artefacts.js:6-9 | a slug without its dashes is exactly the word characters of the lower-cased title, in order |
| Slugs.ArtefactForm.constructor | app/assets/javascripts/artefacts.js:2 | the field is frozen exactly when its value attribute at page load was anything but the empty string, an absent attribute included; the field keeps the slug it holds |
| Slugs.ArtefactForm.GenerateSlug | app/assets/javascripts/artefacts.js:2-10 | a slug field whose value attribute at page load was anything but the empty string (an absent attribute included) is never changed; otherwise it becomes the slug of the title |
| ApplicationHelper.NavLink | app/helpers/application_helper.rb:3-17 | active exactly when both the recognised controller and action equal the current ones |
| ApplicationHelper.NavLinkMarksCurrentPage | app/helpers/application_helper.rb:3-17 | the link to the current page is active; a link handled by another controller is not |
| ApplicationHelper.NextDirection | app/helpers/application_helper.rb:22 | "desc" exactly for the column already sorted ascending, "asc" otherwise |
| ApplicationHelper.Sortable | app/helpers/application_helper.rb:19-24 | the title defaults to the titleized column; the class is "current <direction>" for the sorted column and "sortable" otherwise; the direction is "desc" exactly when the column is sorted ascending; the params are the request's with sort and direction overridden |
| ApplicationHelper.SortableToggles | app/helpers/application_helper.rb:21-23 | following the sorted column's link twice comes back to the first direction; another column offers "asc" and becomes current |
| PermissionsMigration.Lookup | db/migrate/20130111114224_change_permissions_to_array.rb:16 | the entry under the key, or nil when the hash has none |
| PermissionsMigration.UpUser | db/migrate/20130111114224_change_permissions_to_array.rb:15-18 | a hash becomes its "Panopticon" entry, nil when absent, and the user is stamped; any other value leaves the user unchanged |
| PermissionsMigration.DownUser | db/migrate/20130111114224_change_permissions_to_array.rb:24-27 | a non-nil value becomes {"Panopticon" => value} and the user is stamped; nil leaves the user unchanged |
| PermissionsMigration.UpAfterDown | db/migrate/20130111114224_change_permissions_to_array.rb:13-29 | up after down restores the permissions and other fields of every user |
| PermissionsMigration.DownAfterUp | db/migrate/20130111114224_change_permissions_to_array.rb:13-29 | down after up restores a hash exactly when it held a non-nil Panopticon entry alone |
| PermissionsMigration.DownAfterUpLosesOtherApplications | db/migrate/20130111114224_change_permissions_to_array.rb:16 | another application's entry is lost by up |
| PermissionsMigration.UpAll | db/migrate/20130111114224_change_permissions_to_array.rb:14-19 | each user is transformed on its own, in place |
| PermissionsMigration.DownAll | db/migrate/20130111114224_change_permissions_to_array.rb:23-28 | each user is transformed on its own, in place |
| PermissionsMigration.RollbackThenMigrate | db/migrate/20130111114224_change_permissions_to_array.rb:13-29 | over the whole collection, down then up restores every user's permissions and fields |
| PermissionsMigration.Up | db/migrate/20130111114224_change_permissions_to_array.rb:13-20 | the collection afterwards is up applied to each user of the collection before |
| PermissionsMigration.Down | db/migrate/20130111114224_change_permissions_to_array.rb:22-29 | the collection afterwards is down applied to each user of the collection before |

## Left out

- The Router API client is passed to `RoutableArtefact` instead of being built lazily from Plek's `router-api` address (app/models/routable_artefact.rb:14-16). The network and its failures are an oracle saying which request raises.
- Plek's service discovery is a function parameter. It answers with a URL, or with nothing to stand for an exception. The default `Plek.current` is not modelled.
- The debug logging in `submit` and `delete` is not modelled: it has no effect on the requests.
- What a router serves after a trace is an assumed semantics, not code of this repository. Staged changes take effect at the next commit, and deleting an absent route does nothing. The properties about served routes (SubmitServes, DeleteRemoves and the idempotence lemmas) hold under that semantics.
- RoutableArtefacts.RoutableArtefact.RenderingApp: the memoised value is never refreshed. The artefact is a constant of the object, so it cannot go stale here as it could if the Ruby artefact changed after the first call.
- A nil rendering app is passed on as the code does: `rendering_app` yields nil when both the rendering and the owning app are blank (app/models/routable_artefact.rb:51), and `ensure_application_exists` hands that nil to Plek and to `add_backend` (app/models/routable_artefact.rb:19-20). No error is raised for it.
- Tag and CuratedList validation, persistence and queries are not part of this model. Validity is a parameter of Create and Update. The database copy of the tag is the `stored` field, and the curated-list lookup is a function from slug to list.
- The state a new tag starts in is a parameter of New and Create, since the Tag model is not part of this model. `has_parent?` is read as a present parent id, and only the draft and live states are modelled.
- Tags.ApplyAttributes: only the five tag attributes are assigned. Other keys in the nested `tag` hash go to Mongoid mass assignment, which is not modelled.
- `index`, `edit`, `artefacts_in_section` and the `record_not_found` handler are not modelled. They query or render and decide nothing else.
- The `manage_tags` permission filter (`require_tags_permission`, which calls `authorise_user!`) is not modelled. It is authorisation: it decides whether any tags action runs at all, and every action here is modelled as running for a user who holds the permission.
- Tags.TagsController.Publish: `publish!` is a bang state-machine event of the Tag model, which is not part of this model. It could raise there, and the model assumes it does not.
- Tags.TagsGroupedByParents takes the stored tags already in title order: the ordering is the database's `order_by`.
- The rendered markup (`content_tag`, `link_to`, `render json`) is reduced to the values it is built from.
- Support.IsSpace: `blank?` is decided on ASCII whitespace only. ActiveSupport's `String#blank?` also counts Unicode spaces such as U+00A0, U+2000 to U+200A and U+3000, so an application name made of those is blank in Ruby but present here.
- Slugs.Lower: only ASCII letters are lower-cased. JavaScript's Unicode `toLowerCase` can turn a few non-ASCII characters into ASCII word characters (for example the Kelvin sign into "k"), and that is not modelled.
- The DOM event binding, the `chosen` widgets and the flash animation in artefacts.js are not modelled.
- ApplicationHelper.Sortable: `titleize` is a function parameter, and the controller's `sort_column` and `sort_direction` are inputs.
- PermissionsMigration: `save!` is modelled as stamping `updated_at` with the time `now`. Every save changes the permissions, so the stamp is always set. The migration's User class declares no validations, so `save!` cannot fail. Every user rewritten by one run of `Up` or `Down` gets the same `now`, whereas each `save!` in the migration stamps its own moment.

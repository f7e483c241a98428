/** The decision logic of the tag administration screens (TagsController):
    the fields the new form presets, how a new tag's id is composed, which updates are refused, the draft to
    live transition, the curated list kept for a child section, and the
    index's grouping of tags under their parents. Persistence and
    validation belong to the Tag and CuratedList models, which are not part
    of this model: validation is a parameter and the database is the
    `stored` copy of the tag and the lookup passed to `FindTag`. */
module Tags {
  import opened Support

  /** `TAG_TYPES`: the only tag types the controller lists. */
  const TagTypes: set<string> := {"section", "specialist_sector"}

  /** The tag attributes that may be given at the root of the request. */
  const TagKeys: set<string> := {"tag_id", "tag_type", "title", "parent_id", "description"}

  /** The ids that an update may not change. */
  const IdKeys: set<string> := {"tag_id", "parent_id"}

  datatype TagState = Draft | Live

  /** A tag record; every attribute but the state may be nil. */
  datatype Tag = Tag(tagId: Option<string>, tagType: Option<string>, title: Option<string>,
                     description: Option<string>, parentId: Option<string>, state: TagState)

  /** A curated list of artefacts for one child section. */
  datatype CuratedList = CuratedList(slug: string, sections: seq<string>, artefactIds: seq<string>)

  /** A flat parameter hash; a key mapped to None was sent as null. */
  type Params = map<string, Option<string>>

  /** `params[:curated_list]`; `artefact_ids` may be missing. */
  datatype CuratedListParams = CuratedListParams(artefactIds: Option<seq<string>>)

  /** One request's parameters: those at the root (including `type`), the
      nested `tag` hash if sent, and the nested `curated_list` hash if sent. */
  datatype Request = Request(root: Params, tagHash: Option<Params>, curatedList: Option<CuratedListParams>)

  datatype Format = Html | Json

  /** The class whose `new` builds the tag on create. */
  datatype FormObject = TagModel | SpecialistSectorTagForm

  datatype Page = TagsIndex | EditTag(tag: Tag)

  /** What the action sends back. `Crashed` is an exception that escapes
      the action. */
  datatype Response =
    | NoResponse
    | RedirectTo(page: Page)
    | RenderAction(action: string)
    | Head(status: int)
    | JsonTag(status: int, tag: Tag)
    | JsonFieldError(status: int, field: string, message: string)
    | JsonValidationErrors(status: int)
    | Crashed

  const Created := 201
  const Ok := 200
  const UnprocessableEntity := 422

  /** `p[k]`: nil when the key is absent. */
  function Get(p: Params, k: string): Option<string> {
    if k in p then p[k] else None
  }

  /** `tag_parameters`: the nested `tag` hash when one was sent, otherwise the
      root parameters sliced to the five tag attributes. */
  function TagParameters(req: Request): (p: Params)
    ensures req.tagHash.Some? ==> p == req.tagHash.value
    ensures req.tagHash.None? ==> p.Keys == req.root.Keys * TagKeys
    ensures req.tagHash.None? ==> forall k :: k in p ==> p[k] == req.root[k]
  {
    if req.tagHash.Some? then req.tagHash.value
    else map k | k in req.root.Keys * TagKeys :: req.root[k]
  }

  /** `tag_type`: the nested hash's `tag_type` when both are non-nil, else the
      root `type` parameter. */
  function TagType(req: Request): (t: Option<string>)
    ensures req.tagHash.Some? && Get(req.tagHash.value, "tag_type").Some? ==> t == Get(req.tagHash.value, "tag_type")
    ensures (req.tagHash.None? || Get(req.tagHash.value, "tag_type").None?) ==> t == Get(req.root, "type")
  {
    if req.tagHash.Some? && Get(req.tagHash.value, "tag_type").Some? then Get(req.tagHash.value, "tag_type")
    else Get(req.root, "type")
  }

  /** `form_object`: the specialist-sector form for that tag type, the Tag model otherwise. */
  function FormObjectFor(req: Request): (f: FormObject)
    ensures f == SpecialistSectorTagForm <==> TagType(req) == Some("specialist_sector")
  {
    if TagType(req) == Some("specialist_sector") then SpecialistSectorTagForm else TagModel
  }

  /** `form_object.new(params)`: a tag with the given attributes, in the
      model's initial state. */
  function NewTag(p: Params, initial: TagState): (t: Tag)
    ensures t.state == initial
    ensures forall k :: k in TagKeys ==> Attribute(t, k) == Get(p, k)
  {
    Tag(Get(p, "tag_id"), Get(p, "tag_type"), Get(p, "title"), Get(p, "description"), Get(p, "parent_id"), initial)
  }

  /** The blank tag the `new` form starts from: the type comes from the
      `type` parameter when present, and the parent id from `parent_id` only
      when a type was also given. */
  function PresetTag(root: Params, initial: TagState): (t: Tag)
    ensures t.state == initial && t.tagId == None && t.title == None && t.description == None
    ensures t.tagType.Some? <==> Present(Get(root, "type"))
    ensures t.tagType.Some? ==> t.tagType == Get(root, "type")
    ensures t.parentId.Some? <==> Present(Get(root, "type")) && Present(Get(root, "parent_id"))
    ensures t.parentId.Some? ==> t.parentId == Get(root, "parent_id")
  {
    var blank := Tag(None, None, None, None, None, initial);
    if Present(Get(root, "type")) then
      var typed := blank.(tagType := Get(root, "type"));
      if Present(Get(root, "parent_id")) then typed.(parentId := Get(root, "parent_id")) else typed
    else blank
  }

  /** The id a created tag gets: "parent_id/tag_id" under a present parent
      (a nil tag_id interpolates as ""), the given id otherwise. */
  function ComposeTagId(parentId: Option<string>, tagId: Option<string>): Option<string> {
    if Present(parentId) then Some(parentId.value + "/" + tagId.GetOr("")) else tagId
  }

  /** A composed id reads back as the parent's id, a "/", then the child's own id. */
  lemma ComposedTagIdSplits(parentId: Option<string>, tagId: Option<string>)
    ensures Present(parentId) ==>
      var id, parent := ComposeTagId(parentId, tagId).value, parentId.value;
      && id[..|parent|] == parent && id[|parent|] == '/' && id[|parent| + 1..] == tagId.GetOr("")
    ensures Blank(parentId) ==> ComposeTagId(parentId, tagId) == tagId
  {
    if Present(parentId) {
      var id, parent := ComposeTagId(parentId, tagId).value, parentId.value;
      assert id == parent + ("/" + tagId.GetOr(""));
    }
  }

  /** `update_attributes` on the tag's own attributes: each one present in `p` is replaced. */
  function ApplyAttributes(t: Tag, p: Params): (r: Tag)
    ensures r.state == t.state
    ensures forall k :: k in TagKeys ==> Attribute(r, k) == (if k in p then p[k] else Attribute(t, k))
  {
    Tag(if "tag_id" in p then p["tag_id"] else t.tagId,
        if "tag_type" in p then p["tag_type"] else t.tagType,
        if "title" in p then p["title"] else t.title,
        if "description" in p then p["description"] else t.description,
        if "parent_id" in p then p["parent_id"] else t.parentId,
        t.state)
  }

  /** A tag's attribute by its parameter name. */
  function Attribute(t: Tag, k: string): Option<string> {
    if k == "tag_id" then t.tagId
    else if k == "tag_type" then t.tagType
    else if k == "title" then t.title
    else if k == "description" then t.description
    else if k == "parent_id" then t.parentId
    else None
  }

  /** `tag_parameters.except(:parent_id, :tag_id)`. */
  function ExceptIds(p: Params): (r: Params)
    ensures r.Keys == p.Keys - IdKeys
    ensures forall k :: k in r ==> r[k] == p[k]
  {
    p - IdKeys
  }

  /** An accepted update never changes the tag's ids, whatever was sent;
      the other attributes take the values sent. */
  lemma UpdateKeepsIds(t: Tag, p: Params)
    ensures var r := ApplyAttributes(t, ExceptIds(p));
      && r.tagId == t.tagId && r.parentId == t.parentId && r.state == t.state
      && (forall k :: k in TagKeys - IdKeys && k in p ==> Attribute(r, k) == p[k])
      && (forall k :: k in TagKeys && k !in p ==> Attribute(r, k) == Attribute(t, k))
  {
    var r := ApplyAttributes(t, ExceptIds(p));
    assert Attribute(r, "tag_id") == Attribute(t, "tag_id");
    assert Attribute(r, "parent_id") == Attribute(t, "parent_id");
  }

  /** Which "can't be changed" error an update gets, if any: the tag_id
      check comes first, then the parent_id check. A key sent with the
      stored value passes. */
  function RefusedField(t: Tag, p: Params): (f: Option<string>)
    ensures f == Some("tag_id") <==> "tag_id" in p && p["tag_id"] != t.tagId
    ensures f == Some("parent_id") <==>
      !("tag_id" in p && p["tag_id"] != t.tagId) && "parent_id" in p && p["parent_id"] != t.parentId
    ensures f.None? <==> (forall k :: k in IdKeys && k in p ==> p[k] == Attribute(t, k))
  {
    if "tag_id" in p && p["tag_id"] != t.tagId then Some("tag_id")
    else if "parent_id" in p && p["parent_id"] != t.parentId then Some("parent_id")
    else None
  }

  /** Sending the ids a tag already has is the same as not sending them. */
  lemma UnchangedIdsAccepted(t: Tag, p: Params)
    requires RefusedField(t, p).None?
    ensures ApplyAttributes(t, p) == ApplyAttributes(t, ExceptIds(p))
  {
    assert "tag_id" in p ==> p["tag_id"] == Attribute(t, "tag_id");
    assert "parent_id" in p ==> p["parent_id"] == Attribute(t, "parent_id");
  }

  /** `has_parent?` on the Tag model, read as a present parent id. */
  predicate HasParent(t: Tag) {
    Present(t.parentId)
  }

  /** `tag_can_have_curated_list?`: only a section with a parent. */
  predicate CanHaveCuratedList(t: Tag) {
    t.tagType == Some("section") && HasParent(t)
  }

  /** The slug of a tag's curated list: its id with every "/" turned into "-". */
  function CuratedListSlug(tagId: string): (slug: string)
    ensures |slug| == |tagId|
    ensures forall i :: 0 <= i < |tagId| ==> slug[i] == (if tagId[i] == '/' then '-' else tagId[i])
  {
    if tagId == [] then []
    else CuratedListSlug(tagId[..|tagId| - 1]) + [if tagId[|tagId| - 1] == '/' then '-' else tagId[|tagId| - 1]]
  }

  /** A slug holds no "/", and slugging it again changes nothing. */
  lemma CuratedListSlugIsFlat(tagId: string)
    ensures '/' !in CuratedListSlug(tagId)
    ensures CuratedListSlug(CuratedListSlug(tagId)) == CuratedListSlug(tagId)
  {
    var s := CuratedListSlug(tagId);
    assert forall i :: 0 <= i < |s| ==> s[i] != '/';
  }

  /** The slug of a child section "parent/child" is the parent's slug, "-",
      then the child's slug. */
  lemma {:induction false} CuratedListSlugOfChild(parent: string, child: string)
    ensures CuratedListSlug(parent + "/" + child) == CuratedListSlug(parent) + "-" + CuratedListSlug(child)
  {
    var id := parent + "/" + child;
    var lhs, rhs := CuratedListSlug(id), CuratedListSlug(parent) + "-" + CuratedListSlug(child);
    assert |lhs| == |rhs|;
    forall i | 0 <= i < |lhs| ensures lhs[i] == rhs[i] {
      if i < |parent| {
        assert id[i] == parent[i];
      } else if i > |parent| {
        assert id[i] == child[i - |parent| - 1];
      }
    }
  }

  /** `find_or_initialize_curated_list`: the list stored under the tag's slug,
      or a new one with that slug whose only section is the tag. `lookup` is
      the store's answer for a slug. */
  function FindOrInitializeCuratedList(tagId: string, lookup: string -> Option<CuratedList>): (l: CuratedList)
    ensures lookup(CuratedListSlug(tagId)).Some? ==> l == lookup(CuratedListSlug(tagId)).value
    ensures lookup(CuratedListSlug(tagId)).None? ==> l == CuratedList(CuratedListSlug(tagId), [tagId], [])
  {
    var slug := CuratedListSlug(tagId);
    match lookup(slug)
    case Some(existing) => existing
    case None => CuratedList(slug, [tagId], [])
  }

  /** The artefact ids sent for a curated list with the blank ones dropped. */
  function CleanArtefactIds(ids: seq<string>): (r: seq<string>)
    ensures |r| <= |ids|
    ensures forall x :: x in r <==> x in ids && !IsBlankString(x)
  {
    if ids == [] then []
    else CleanArtefactIds(ids[..|ids| - 1]) + (if IsBlankString(ids[|ids| - 1]) then [] else [ids[|ids| - 1]])
  }

  /** One more id at the end is cleaned on its own. */
  lemma CleanArtefactIdsSnoc(ids: seq<string>, x: string)
    ensures CleanArtefactIds(ids + [x]) == CleanArtefactIds(ids) + (if IsBlankString(x) then [] else [x])
  {
    assert (ids + [x])[..|ids + [x]| - 1] == ids;
  }

  /** Dropping blanks keeps the order: cleaning a concatenation cleans each part. */
  lemma {:induction false} CleanArtefactIdsAppend(a: seq<string>, b: seq<string>)
    ensures CleanArtefactIds(a + b) == CleanArtefactIds(a) + CleanArtefactIds(b)
    decreases |b|
  {
    if b == [] {
      assert a + b == a;
    } else {
      var b', x := b[..|b| - 1], b[|b| - 1];
      assert b == b' + [x] && a + b == (a + b') + [x];
      CleanArtefactIdsAppend(a, b');
      CleanArtefactIdsSnoc(a + b', x);
      CleanArtefactIdsSnoc(b', x);
      SnocRegroup(CleanArtefactIds(a + b'), CleanArtefactIds(a), CleanArtefactIds(b'),
                  if IsBlankString(x) then [] else [x]);
    }
  }

  /** A list without blanks is kept as sent. */
  lemma {:induction false} CleanArtefactIdsKeepsClean(ids: seq<string>)
    requires forall i :: 0 <= i < |ids| ==> !IsBlankString(ids[i])
    ensures CleanArtefactIds(ids) == ids
  {
    if ids != [] {
      var init, x := ids[..|ids| - 1], ids[|ids| - 1];
      assert forall i :: 0 <= i < |init| ==> init[i] == ids[i];
      assert ids == init + [x];
      CleanArtefactIdsKeepsClean(init);
      CleanArtefactIdsSnoc(init, x);
    }
  }

  /** Cleaning twice is cleaning once. */
  lemma CleanArtefactIdsIdempotent(ids: seq<string>)
    ensures CleanArtefactIds(CleanArtefactIds(ids)) == CleanArtefactIds(ids)
  {
    var c := CleanArtefactIds(ids);
    forall i | 0 <= i < |c| ensures !IsBlankString(c[i]) {
      assert c[i] in c;
    }
    CleanArtefactIdsKeepsClean(c);
  }

  // ----- The index: tags grouped under their parents -----

  /** The tags of a listed type, in the order given. */
  function OfTagTypes(tags: seq<Tag>): (r: seq<Tag>)
    ensures forall t :: t in r <==> t in tags && t.tagType.Some? && t.tagType.value in TagTypes
  {
    if tags == [] then []
    else
      var t := tags[|tags| - 1];
      OfTagTypes(tags[..|tags| - 1]) + (if t.tagType.Some? && t.tagType.value in TagTypes then [t] else [])
  }

  /** The tags whose parent id is `key`, in the order given: the reference
      for what `group_by(&:parent_id)` gathers under `key`. */
  function ChildrenOf(tags: seq<Tag>, key: Option<string>): (r: seq<Tag>)
    ensures forall t :: t in r <==> t in tags && t.parentId == key
  {
    if tags == [] then []
    else ChildrenOf(tags[..|tags| - 1], key) + (if tags[|tags| - 1].parentId == key then [tags[|tags| - 1]] else [])
  }

  /** Whether the type filter keeps `t`. */
  predicate HasTagType(t: Tag) {
    t.tagType.Some? && t.tagType.value in TagTypes
  }

  /** One more tag at the end is filtered on its own. */
  lemma OfTagTypesSnoc(s: seq<Tag>, t: Tag)
    ensures OfTagTypes(s + [t]) == OfTagTypes(s) + (if HasTagType(t) then [t] else [])
  {
    assert (s + [t])[..|s + [t]| - 1] == s;
  }

  /** The step of `OfTagTypesAppend`: one more tag at the end of `b`. */
  lemma OfTagTypesAppendSnoc(a: seq<Tag>, b: seq<Tag>, t: Tag)
    requires OfTagTypes(a + b) == OfTagTypes(a) + OfTagTypes(b)
    ensures OfTagTypes((a + b) + [t]) == OfTagTypes(a) + OfTagTypes(b + [t])
  {
    OfTagTypesSnoc(a + b, t);
    OfTagTypesSnoc(b, t);
    SnocRegroup(OfTagTypes(a + b), OfTagTypes(a), OfTagTypes(b), if HasTagType(t) then [t] else []);
  }

  /** Filtering by type keeps the order: it distributes over concatenation. */
  lemma {:induction false} OfTagTypesAppend(a: seq<Tag>, b: seq<Tag>)
    ensures OfTagTypes(a + b) == OfTagTypes(a) + OfTagTypes(b)
    decreases |b|
  {
    if b == [] {
      assert a + b == a;
    } else {
      var b', t := b[..|b| - 1], b[|b| - 1];
      assert b == b' + [t] && a + b == (a + b') + [t];
      OfTagTypesAppend(a, b');
      OfTagTypesAppendSnoc(a, b', t);
    }
  }

  /** One more tag at the end is gathered on its own. */
  lemma ChildrenOfSnoc(s: seq<Tag>, t: Tag, key: Option<string>)
    ensures ChildrenOf(s + [t], key) == ChildrenOf(s, key) + (if t.parentId == key then [t] else [])
  {
    assert (s + [t])[..|s + [t]| - 1] == s;
  }

  /** The step of `ChildrenOfAppend`: one more tag at the end of `b`. */
  lemma ChildrenOfAppendSnoc(a: seq<Tag>, b: seq<Tag>, t: Tag, key: Option<string>)
    requires ChildrenOf(a + b, key) == ChildrenOf(a, key) + ChildrenOf(b, key)
    ensures ChildrenOf((a + b) + [t], key) == ChildrenOf(a, key) + ChildrenOf(b + [t], key)
  {
    ChildrenOfSnoc(a + b, t, key);
    ChildrenOfSnoc(b, t, key);
    SnocRegroup(ChildrenOf(a + b, key), ChildrenOf(a, key), ChildrenOf(b, key), if t.parentId == key then [t] else []);
  }

  /** Gathering the children of a key keeps the order: it distributes over concatenation. */
  lemma {:induction false} ChildrenOfAppend(a: seq<Tag>, b: seq<Tag>, key: Option<string>)
    ensures ChildrenOf(a + b, key) == ChildrenOf(a, key) + ChildrenOf(b, key)
    decreases |b|
  {
    if b == [] {
      assert a + b == a;
    } else {
      var b', t := b[..|b| - 1], b[|b| - 1];
      assert b == b' + [t] && a + b == (a + b') + [t];
      ChildrenOfAppend(a, b', key);
      ChildrenOfAppendSnoc(a, b', t, key);
    }
  }

  /** One entry of `group_by(...).to_a`. */
  datatype Group = Group(key: Option<string>, members: seq<Tag>)

  /** Adds a tag to the group of its parent id, opening a group at the end
      when there is none yet. */
  function AddToGroup(groups: seq<Group>, t: Tag): (r: seq<Group>)
    ensures |groups| <= |r| <= |groups| + 1
    ensures forall i :: 0 <= i < |groups| ==> r[i].key == groups[i].key
    ensures |r| == |groups| + 1 ==> r[|groups|] == Group(t.parentId, [t])
  {
    if groups == [] then [Group(t.parentId, [t])]
    else if groups[0].key == t.parentId then [groups[0].(members := groups[0].members + [t])] + groups[1..]
    else [groups[0]] + AddToGroup(groups[1..], t)
  }

  /** `group_by(&:parent_id).to_a`: groups in order of first appearance,
      members in the order given. */
  function GroupByParent(tags: seq<Tag>): (r: seq<Group>)
    ensures r == [] <==> tags == []
  {
    if tags == [] then [] else AddToGroup(GroupByParent(tags[..|tags| - 1]), tags[|tags| - 1])
  }

  /** `groups.find {|key, _| key == k }`, keeping only the members. */
  function FindGroup(groups: seq<Group>, k: Option<string>): (r: Option<seq<Tag>>)
    ensures r.None? <==> forall i :: 0 <= i < |groups| ==> groups[i].key != k
    ensures r.Some? ==> exists i :: 0 <= i < |groups| && groups[i].key == k && r.value == groups[i].members &&
                                    forall j :: 0 <= j < i ==> groups[j].key != k
  {
    if groups == [] then None
    else if groups[0].key == k then Some(groups[0].members)
    else FindGroup(groups[1..], k)
  }

  lemma {:induction false} FindAfterAdd(groups: seq<Group>, t: Tag, k: Option<string>)
    ensures FindGroup(AddToGroup(groups, t), k) ==
      if k == t.parentId then Some(FindGroup(groups, k).GetOr([]) + [t]) else FindGroup(groups, k)
    decreases |groups|
  {
    if groups == [] {
      assert AddToGroup(groups, t) == [Group(t.parentId, [t])];
      assert FindGroup(groups, k).GetOr([]) + [t] == [t];
    } else if groups[0].key == t.parentId {
      var r := AddToGroup(groups, t);
      assert r[0].key == groups[0].key && r[1..] == groups[1..];
    } else {
      FindAfterAdd(groups[1..], t, k);
      assert AddToGroup(groups, t)[1..] == AddToGroup(groups[1..], t);
    }
  }

  /** What `group_by` gathers under a key is exactly the tags with that
      parent id, in order, and a key has a group only if some tag has it. */
  lemma {:induction false} FindGroupByParent(tags: seq<Tag>, k: Option<string>)
    ensures FindGroup(GroupByParent(tags), k) == if ChildrenOf(tags, k) == [] then None else Some(ChildrenOf(tags, k))
    decreases |tags|
  {
    if tags != [] {
      var init := tags[..|tags| - 1];
      var t := tags[|tags| - 1];
      FindGroupByParent(init, k);
      FindAfterAdd(GroupByParent(init), t, k);
      if t.parentId == k {
        assert ChildrenOf(tags, k) == ChildrenOf(init, k) + [t];
        assert FindGroup(GroupByParent(init), k).GetOr([]) == ChildrenOf(init, k);
      } else {
        assert ChildrenOf(tags, k) == ChildrenOf(init, k);
      }
    }
  }

  /** A root tag with its children, as the index lists them. */
  datatype Family = Family(root: Tag, children: seq<Tag>)

  /** The `NoMethodError` raised by `nil.map` when tags exist but none is a root. */
  datatype Grouping = Grouped(families: seq<Family>) | NoRootGroup

  /** Pairs each root with the group under its tag id, or none. */
  function Families(groups: seq<Group>, roots: seq<Tag>): (r: seq<Family>)
    ensures |r| == |roots|
    ensures forall i :: 0 <= i < |roots| ==> r[i] == Family(roots[i], FindGroup(groups, roots[i].tagId).GetOr([]))
  {
    if roots == [] then []
    else [Family(roots[0], FindGroup(groups, roots[0].tagId).GetOr([]))] + Families(groups, roots[1..])
  }

  /** `tags_grouped_by_parents`, given the stored tags in title order. */
  function TagsGroupedByParents(tags: seq<Tag>): Grouping {
    var groups := GroupByParent(OfTagTypes(tags));
    if groups == [] then Grouped([])
    else match FindGroup(groups, None)
      case None => NoRootGroup
      case Some(roots) => Grouped(Families(groups, roots))
  }

  /** The index lists nothing when no tag has a listed type; otherwise, when
      some listed tag is a root, one family per root in order, each holding
      exactly the listed tags whose parent id is the root's tag id, in order;
      and it raises when listed tags exist but none is a root. */
  lemma TagsGroupedByParentsSpec(tags: seq<Tag>)
    ensures var listed := OfTagTypes(tags);
      && (listed == [] ==> TagsGroupedByParents(tags) == Grouped([]))
      && (listed != [] && ChildrenOf(listed, None) == [] ==> TagsGroupedByParents(tags) == NoRootGroup)
      && (ChildrenOf(listed, None) != [] ==>
            var roots := ChildrenOf(listed, None);
            && TagsGroupedByParents(tags).Grouped?
            && |TagsGroupedByParents(tags).families| == |roots|
            && forall i :: 0 <= i < |roots| ==>
                 TagsGroupedByParents(tags).families[i] == Family(roots[i], ChildrenOf(listed, roots[i].tagId)))
  {
    var listed := OfTagTypes(tags);
    var groups := GroupByParent(listed);
    FindGroupByParent(listed, None);
    var roots := ChildrenOf(listed, None);
    if roots != [] {
      assert listed != [] by {
        assert roots[0] in listed;
      }
      forall i | 0 <= i < |roots| ensures FindGroup(groups, roots[i].tagId).GetOr([]) == ChildrenOf(listed, roots[i].tagId) {
        FindGroupByParent(listed, roots[i].tagId);
      }
    }
  }

  /** One request to the tags controller: the tag it acts on, the curated
      list found for it, the tag as the database holds it, the flash and the
      response. */
  class TagsController {
    var tag: Option<Tag>
    var stored: Option<Tag>
    var curatedList: Option<CuratedList>
    var formObject: Option<FormObject>
    var flash: map<string, string>
    var response: Response

    constructor ()
      ensures tag == None && stored == None && curatedList == None && formObject == None
      ensures flash == map[] && response == NoResponse
    {
      tag := None;
      stored := None;
      curatedList := None;
      formObject := None;
      flash := map[];
      response := NoResponse;
    }

    /** The state `find_tag` leaves for edit, update and publish: a tag
        found by its id, with its curated list when it can have one. */
    ghost predicate Found()
      reads this
    {
      && tag.Some? && tag.value.tagId.Some?
      && (CanHaveCuratedList(tag.value) ==> curatedList.Some?)
    }

    /** `find_tag`: `found` is the stored tag with the requested id, and
        `lookup` the stored curated lists by slug. */
    method FindTag(found: Tag, lookup: string -> Option<CuratedList>)
      requires found.tagId.Some?
      modifies this
      ensures Found() && tag == Some(found) && stored == Some(found)
      ensures CanHaveCuratedList(found) ==>
        curatedList == Some(FindOrInitializeCuratedList(found.tagId.value, lookup))
      ensures !CanHaveCuratedList(found) ==> curatedList == old(curatedList)
      ensures formObject == old(formObject) && flash == old(flash) && response == old(response)
    {
      tag := Some(found);
      stored := Some(found);
      if CanHaveCuratedList(found) {
        curatedList := Some(FindOrInitializeCuratedList(found.tagId.value, lookup));
      }
    }

    /** `new`: a fresh tag, preset from the root parameters, and the form. */
    method New(root: Params, initial: TagState)
      modifies this
      ensures tag == Some(PresetTag(root, initial)) && response == RenderAction("new")
      ensures stored == old(stored) && curatedList == old(curatedList)
      ensures formObject == old(formObject) && flash == old(flash)
    {
      var t := Tag(None, None, None, None, None, initial);
      if Present(Get(root, "type")) {
        t := t.(tagType := Get(root, "type"));
        if Present(Get(root, "parent_id")) {
          t := t.(parentId := Get(root, "parent_id"));
        }
      }
      tag := Some(t);
      response := RenderAction("new");
    }

    /** `create`: builds the tag from the parameters with the form object,
        prefixes a present parent id to its tag id, and saves it when
        `valid` accepts it. `initial` is the state a new tag starts in. */
    method Create(req: Request, format: Format, initial: TagState, valid: (FormObject, Tag) -> bool)
      modifies this
      ensures var p := TagParameters(req);
        tag == Some(NewTag(p, initial).(tagId := ComposeTagId(Get(p, "parent_id"), Get(p, "tag_id"))))
      ensures formObject == Some(FormObjectFor(req)) && curatedList == old(curatedList)
      ensures valid(formObject.value, tag.value) ==> stored == tag
      ensures !valid(formObject.value, tag.value) ==> stored == old(stored)
      ensures valid(formObject.value, tag.value) && format == Html ==>
        flash == old(flash)["success" := "Tag has been created"] && response == RedirectTo(TagsIndex)
      ensures valid(formObject.value, tag.value) && format == Json ==>
        flash == old(flash) && response == JsonTag(Created, tag.value)
      ensures !valid(formObject.value, tag.value) ==>
        && flash == old(flash)
        && response == (if format == Html then RenderAction("new") else JsonValidationErrors(UnprocessableEntity))
    {
      var form := FormObjectFor(req);
      formObject := Some(form);
      var t := NewTag(TagParameters(req), initial);
      if Present(t.parentId) {
        t := t.(tagId := Some(t.parentId.value + "/" + t.tagId.GetOr("")));
      }
      tag := Some(t);
      if valid(form, t) {
        stored := Some(t);
        if format == Html {
          flash := flash["success" := "Tag has been created"];
          response := RedirectTo(TagsIndex);
        } else {
          response := JsonTag(Created, t);
        }
      } else {
        response := if format == Html then RenderAction("new") else JsonValidationErrors(UnprocessableEntity);
      }
    }

    /** `update_curated_list`: stores the sent artefact ids without blanks;
        a missing `artefact_ids` raises. */
    method UpdateCuratedList(sent: CuratedListParams) returns (raised: bool)
      requires curatedList.Some?
      modifies this
      ensures raised <==> sent.artefactIds.None?
      ensures !raised ==> curatedList == Some(old(curatedList.value).(artefactIds := CleanArtefactIds(sent.artefactIds.value)))
      ensures raised ==> curatedList == old(curatedList)
      ensures tag == old(tag) && stored == old(stored) && formObject == old(formObject)
      ensures flash == old(flash) && response == old(response)
    {
      match sent.artefactIds
      case None =>
        raised := true;
      case Some(ids) =>
        curatedList := Some(curatedList.value.(artefactIds := CleanArtefactIds(ids)));
        raised := false;
    }

    /** `update`: the curated list first (for a child section, when one was
        sent), then the refusal of a changed tag_id or parent_id, then the
        other attributes, saved when `valid` accepts the result. */
    method Update(req: Request, format: Format, valid: Tag -> bool)
      requires Found()
      modifies this
      ensures var t, p := old(tag.value), TagParameters(req);
        var listSent := CanHaveCuratedList(t) && req.curatedList.Some?;
        && formObject == old(formObject)
        && (!listSent ==> curatedList == old(curatedList))
        && (listSent && req.curatedList.value.artefactIds.None? ==>
              response == Crashed && tag == old(tag) && stored == old(stored) &&
              curatedList == old(curatedList) && flash == old(flash))
        && (listSent && req.curatedList.value.artefactIds.Some? ==>
              curatedList == Some(old(curatedList.value).(artefactIds := CleanArtefactIds(req.curatedList.value.artefactIds.value))))
        && (!listSent || req.curatedList.value.artefactIds.Some? ==>
              && (RefusedField(t, p).Some? ==>
                    && tag == old(tag) && stored == old(stored) && flash == old(flash)
                    && response == JsonFieldError(UnprocessableEntity, RefusedField(t, p).value, "can't be changed"))
              && (RefusedField(t, p).None? ==>
                    var u := ApplyAttributes(t, ExceptIds(p));
                    && tag == Some(u)
                    && (valid(u) ==> stored == Some(u))
                    && (!valid(u) ==> stored == old(stored) && flash == old(flash))
                    && (valid(u) && format == Html ==>
                          flash == old(flash)["success" := "Tag has been updated"] && response == RedirectTo(TagsIndex))
                    && (valid(u) && format == Json ==> flash == old(flash) && response == Head(Ok))
                    && (!valid(u) ==>
                          response == (if format == Html then RenderAction("edit") else JsonValidationErrors(UnprocessableEntity)))))
    {
      var t := tag.value;
      if CanHaveCuratedList(t) && req.curatedList.Some? {
        var raised := UpdateCuratedList(req.curatedList.value);
        if raised {
          response := Crashed;
          return;
        }
      }

      var p := TagParameters(req);
      if "tag_id" in p && p["tag_id"] != t.tagId {
        assert RefusedField(t, p) == Some("tag_id");
        response := JsonFieldError(UnprocessableEntity, "tag_id", "can't be changed");
        return;
      }
      if "parent_id" in p && p["parent_id"] != t.parentId {
        assert RefusedField(t, p) == Some("parent_id");
        response := JsonFieldError(UnprocessableEntity, "parent_id", "can't be changed");
        return;
      }

      assert RefusedField(t, p).None?;
      var u := ApplyAttributes(t, ExceptIds(p));
      tag := Some(u);
      if valid(u) {
        stored := Some(u);
        if format == Html {
          flash := flash["success" := "Tag has been updated"];
          response := RedirectTo(TagsIndex);
        } else {
          response := Head(Ok);
        }
      } else {
        response := if format == Html then RenderAction("edit") else JsonValidationErrors(UnprocessableEntity);
      }
    }

    /** `publish`: a draft tag goes live and is saved; a live one is left
        alone with an error. Either way the edit page follows. */
    method Publish()
      requires Found()
      modifies this
      ensures old(tag.value.state) == Draft ==>
        && tag == Some(old(tag.value).(state := Live)) && stored == tag
        && flash == old(flash)["success" := "Tag has been published"]
      ensures old(tag.value.state) != Draft ==>
        && tag == old(tag) && stored == old(stored)
        && flash == old(flash)["error" := "Tag is already live"]
      ensures response == RedirectTo(EditTag(tag.value))
      ensures curatedList == old(curatedList) && formObject == old(formObject)
    {
      var t := tag.value;
      if t.state == Draft {
        t := t.(state := Live);
        tag := Some(t);
        stored := Some(t);
        flash := flash["success" := "Tag has been published"];
      } else {
        flash := flash["error" := "Tag is already live"];
      }
      response := RedirectTo(EditTag(t));
    }
  }
}

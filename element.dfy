/**
 * The element of src/base/Element.php: identity, status flags, nested-set
 * coordinates and the private caches its accessors fill on first use.
 *
 * Collaborators the element calls but does not own are inputs:
 *  - a criteria query is a `Query` value (its `ids()` list and what `first()`
 *    returns once an `id` filter is set);
 *  - a query for the parent or a sibling is the element (or absence) it returns;
 *  - the content store's `getContent` answer is an `Option<Content>`, and
 *    `createContent` allocates a blank `Content`;
 *  - the field registry is a function from (field context, handle) to a field;
 *  - the field-type hooks `prepValue` / `prepValueFromPost` are functions.
 * Ghost counters record how often each collaborator is consulted, so that the
 * contracts can say when a cached answer is returned without a query.
 */
module Elements {

  import opened Wrappers
  import opened Structure

  /** A field value as stored on the content object; `Null` is PHP `null`. */
  datatype Value = Null | Data(payload: string)

  /** A field type: the owner of the `prepValue` / `prepValueFromPost` hooks. */
  datatype FieldType = FieldType(name: string)

  /** A field definition, as the field registry returns it. */
  datatype Field = Field(handle: string, fieldType: Option<FieldType>)

  /** What `getFieldValue` yields: a prepared value, or the "no field" error. */
  datatype FieldValue = Found(value: Value) | NoSuchField(handle: string)

  /** The two-tier property read of `__get`. */
  datatype Property = Attribute(value: Value) | FieldProperty(value: Value) | UnknownProperty(name: string)

  /** The argument of `setContent`: an attribute array, a content model, or anything else. */
  datatype ContentArg = Attributes(attributes: map<string, Value>) | Model(model: Content) | Other

  /**
   * A criteria query as the element uses it: the ordered id list `ids()`
   * returns, and the element `first()` returns once `id` is set to a given id.
   */
  datatype Query = Query(ids: seq<nat>, byId: map<nat, Element>)

  /** The content model: a bag of field values updated in place. */
  class Content {
    var values: map<string, Value>

    /** `createContent`: a blank content model. */
    constructor ()
      ensures values == map[]
    {
      values := map[];
    }
  }

  /** The process-wide "current field context" of the content service. */
  class ContentService {
    var fieldContext: string

    constructor (context: string)
      ensures fieldContext == context
    {
      fieldContext := context;
    }
  }

  /** PHP `!empty($s)` for a string or null: neither null, "" nor "0". */
  predicate NonEmpty(s: Option<string>)
  {
    s.Some? && s.value != "" && s.value != "0"
  }

  /** PHP `isset($a[$k])` on an array of values: present and not null. */
  predicate IsSet(a: map<string, Value>, k: string)
  {
    k in a && a[k] != Null
  }

  /** A value passed through a field's hook when the field has a type. */
  function Prep(f: Field, v: Value, hook: (FieldType, Value) -> Value): Value
  {
    if f.fieldType.Some? then hook(f.fieldType.value, v) else v
  }

  // ---------------------------------------------------------------------------
  // `_getRelativeElement`: neighbour lookup in an ordered id list.
  // ---------------------------------------------------------------------------

  /** `array_search`: the first index holding `id`. */
  function IndexOf(ids: seq<nat>, id: nat): (k: Option<nat>)
    ensures k.Some? ==> k.value < |ids| && ids[k.value] == id
    ensures k.Some? ==> forall j :: 0 <= j < k.value ==> ids[j] != id
    ensures k.None? <==> id !in ids
  {
    if ids == [] then None
    else if ids[0] == id then Some(0)
    else match IndexOf(ids[1..], id)
      case None => None
      case Some(j) => Some(j + 1)
  }

  /**
   * The id `dir` places away from this element's id in `ids`, when this
   * element has an id, the id occurs in the list and the neighbour index is
   * inside it.
   */
  function RelativeId(ids: seq<nat>, id: nat, dir: int): (r: Option<nat>)
    ensures r.Some? <==> id != 0 && id in ids && 0 <= IndexOf(ids, id).value + dir < |ids|
    ensures r.Some? ==> r.value == ids[IndexOf(ids, id).value + dir]
  {
    if id == 0 then None
    else match IndexOf(ids, id)
      case None => None
      case Some(k) => if 0 <= k + dir < |ids| then Some(ids[k + dir]) else None
  }

  /** `_getRelativeElement(criteria, dir)` for the element with id `id`. */
  function RelativeElement(q: Query, id: nat, dir: int): (r: Option<Element>)
    ensures r.Some? ==> RelativeId(q.ids, id, dir).Some? && RelativeId(q.ids, id, dir).value in q.byId
                        && q.byId[RelativeId(q.ids, id, dir).value] == r.value
    ensures RelativeId(q.ids, id, dir).Some? && RelativeId(q.ids, id, dir).value in q.byId ==> r.Some?
  {
    match RelativeId(q.ids, id, dir)
    case None => None
    case Some(n) => if n in q.byId then Some(q.byId[n]) else None
  }

  /** The element `getNext` / `getPrev` return from a cache slot set by `setNext` / `setPrev`. */
  function FromSlot(slot: Cached<Element>): Option<Element>
  {
    if slot.Present? then Some(slot.value) else None
  }

  // ---------------------------------------------------------------------------
  // `setContentFromPost`: one step per field of the layout.
  // ---------------------------------------------------------------------------

  /** The raw post content and the content model's values while the layout is walked. */
  datatype PostState = PostState(raw: map<string, Value>, values: map<string, Value>)

  /** Whether a file was uploaded for `handle` under the post location. */
  predicate Uploaded(location: Option<string>, handle: string, uploaded: string -> bool)
  {
    NonEmpty(location) && uploaded(location.value + "." + handle)
  }

  /** One iteration of the layout loop. */
  function PostStep(st: PostState, f: Option<Field>, post: map<string, Value>,
                    location: Option<string>, uploaded: string -> bool,
                    hook: (FieldType, Value) -> Value): PostState
  {
    if f.None? then st
    else
      var h := f.value.handle;
      if IsSet(post, h) then
        PostState(st.raw[h := post[h]], st.values[h := Prep(f.value, post[h], hook)])
      else if Uploaded(location, h, uploaded) then
        PostState(st.raw, st.values[h := Prep(f.value, Null, hook)])
      else st
  }

  /** The state after the loop has visited every field of `fields`, in order. */
  function Posted(st: PostState, fields: seq<Option<Field>>, post: map<string, Value>,
                  location: Option<string>, uploaded: string -> bool,
                  hook: (FieldType, Value) -> Value): PostState
    decreases |fields|
  {
    if fields == [] then st
    else PostStep(Posted(st, fields[..|fields| - 1], post, location, uploaded, hook),
                  fields[|fields| - 1], post, location, uploaded, hook)
  }

  /** Field `i` of the layout exists and has handle `h`. */
  predicate HasHandleAt(fields: seq<Option<Field>>, i: int, h: string)
  {
    0 <= i < |fields| && fields[i].Some? && fields[i].value.handle == h
  }

  /** Some field of the layout has handle `h`. */
  ghost predicate InLayout(fields: seq<Option<Field>>, h: string)
  {
    exists i :: HasHandleAt(fields, i, h)
  }

  /** No two fields of the layout share a handle. */
  ghost predicate DistinctHandles(fields: seq<Option<Field>>)
  {
    forall i, j :: 0 <= j < |fields| && fields[j].Some? && HasHandleAt(fields, i, fields[j].value.handle) ==> i == j
  }

  /**
   * A handle receives a raw post entry exactly when it is already there or a
   * field of the layout carries it and the post holds a non-null value for it;
   * the entry then holds the posted value, before any hook ran.
   */
  lemma {:induction false} PostedRaw(st: PostState, fields: seq<Option<Field>>, post: map<string, Value>,
                                     location: Option<string>, uploaded: string -> bool,
                                     hook: (FieldType, Value) -> Value, h: string)
    ensures var r := Posted(st, fields, post, location, uploaded, hook).raw;
      && (h in r <==> h in st.raw || (InLayout(fields, h) && IsSet(post, h)))
      && (InLayout(fields, h) && IsSet(post, h) ==> r[h] == post[h])
      && (!(InLayout(fields, h) && IsSet(post, h)) && h in st.raw ==> r[h] == st.raw[h])
    decreases |fields|
  {
    if fields != [] {
      var init := fields[..|fields| - 1];
      var last := fields[|fields| - 1];
      PostedRaw(st, init, post, location, uploaded, hook, h);
      assert InLayout(fields, h) <==> InLayout(init, h) || (last.Some? && last.value.handle == h) by {
        if InLayout(fields, h) {
          var i :| HasHandleAt(fields, i, h);
          if i < |fields| - 1 { assert HasHandleAt(init, i, h); }
        }
        if InLayout(init, h) {
          var i :| HasHandleAt(init, i, h);
          assert HasHandleAt(fields, i, h);
        }
        if last.Some? && last.value.handle == h {
          assert HasHandleAt(fields, |fields| - 1, h);
        }
      }
    }
  }

  /**
   * A handle that no field of the layout carries with a posted value or an
   * uploaded file is left exactly as it was, in the raw post content and on
   * the content model.
   */
  lemma {:induction false} PostedSkips(st: PostState, fields: seq<Option<Field>>, post: map<string, Value>,
                                       location: Option<string>, uploaded: string -> bool,
                                       hook: (FieldType, Value) -> Value, h: string)
    requires !InLayout(fields, h) || (!IsSet(post, h) && !Uploaded(location, h, uploaded))
    ensures var r := Posted(st, fields, post, location, uploaded, hook);
      && (h in r.raw <==> h in st.raw) && (h in r.raw ==> r.raw[h] == st.raw[h])
      && (h in r.values <==> h in st.values) && (h in r.values ==> r.values[h] == st.values[h])
    decreases |fields|
  {
    if fields != [] {
      var init := fields[..|fields| - 1];
      if InLayout(init, h) {
        var i :| HasHandleAt(init, i, h);
        assert HasHandleAt(fields, i, h);
      }
      PostedSkips(st, init, post, location, uploaded, hook, h);
      var last := fields[|fields| - 1];
      if last.Some? && last.value.handle == h {
        assert HasHandleAt(fields, |fields| - 1, h);
      }
    }
  }

  /**
   * With distinct handles, the field at index `i` ends with its prepared value
   * on the content model: the hook applied to the posted value, or to `null`
   * when only a file was uploaded for it (in which case it gets no raw entry).
   */
  lemma {:induction false} PostedValue(st: PostState, fields: seq<Option<Field>>, post: map<string, Value>,
                                       location: Option<string>, uploaded: string -> bool,
                                       hook: (FieldType, Value) -> Value, i: int)
    requires DistinctHandles(fields) && 0 <= i < |fields| && fields[i].Some?
    ensures var f, r := fields[i].value, Posted(st, fields, post, location, uploaded, hook);
      && (IsSet(post, f.handle) ==> f.handle in r.values && r.values[f.handle] == Prep(f, post[f.handle], hook))
      && (!IsSet(post, f.handle) && Uploaded(location, f.handle, uploaded) ==>
            f.handle in r.values && r.values[f.handle] == Prep(f, Null, hook)
            && (f.handle in r.raw <==> f.handle in st.raw))
    decreases |fields|
  {
    var init := fields[..|fields| - 1];
    var last := fields[|fields| - 1];
    var h := fields[i].value.handle;
    if i == |fields| - 1 {
      PostedRaw(st, init, post, location, uploaded, hook, h);
    } else {
      assert HasHandleAt(init, i, init[i].value.handle);
      forall a, b | 0 <= b < |init| && init[b].Some? && HasHandleAt(init, a, init[b].value.handle)
        ensures a == b
      {
        assert HasHandleAt(fields, a, fields[b].value.handle);
      }
      PostedValue(st, init, post, location, uploaded, hook, i);
      assert last.Some? ==> last.value.handle != h by {
        if last.Some? && last.value.handle == h {
          assert HasHandleAt(fields, |fields| - 1, fields[i].value.handle);
        }
      }
    }
  }

  // ---------------------------------------------------------------------------
  // The element.
  // ---------------------------------------------------------------------------

  class Element {
    var id: nat
    var enabled: bool
    var archived: bool
    var localeEnabled: bool
    var root: nat
    var lft: nat
    var rgt: nat
    var level: nat

    /** The field context `getFieldContext` reports: `None` for the base class's
        answer (the content service's current context), `Some` where a kind of
        element supplies its own. */
    var ownFieldContext: Option<string>

    var fieldsByHandle: map<string, Option<Field>>
    var contentPostLocation: Option<string>
    var rawPostContent: Option<map<string, Value>>
    var content: Content?
    var preppedContent: map<string, Value>
    var nextElement: Cached<Element>
    var prevElement: Cached<Element>
    var parent: Cached<Element>
    var prevSibling: Option<Element>
    var nextSibling: Option<Element>

    ghost var parentQueries: nat
    ghost var siblingQueries: nat
    ghost var contentLoads: nat
    ghost var fieldLookups: nat
    ghost var prepCalls: nat

    /** An element hydrated with an id, its flags and its coordinates; every cache empty. */
    constructor (id: nat, enabled: bool, archived: bool, localeEnabled: bool,
                 root: nat, lft: nat, rgt: nat, level: nat)
      ensures this.id == id && this.enabled == enabled && this.archived == archived
      ensures this.localeEnabled == localeEnabled
      ensures Pos() == Position(root, lft, rgt, level)
      ensures ownFieldContext == None && fieldsByHandle == map[] && preppedContent == map[]
      ensures contentPostLocation == None && rawPostContent == None && content == null
      ensures nextElement == Unset && prevElement == Unset && parent == Unset
      ensures prevSibling == None && nextSibling == None
      ensures GetContentFromPost() == map[]
    {
      this.id, this.enabled, this.archived, this.localeEnabled := id, enabled, archived, localeEnabled;
      this.root, this.lft, this.rgt, this.level := root, lft, rgt, level;
      ownFieldContext := None;
      fieldsByHandle, preppedContent := map[], map[];
      contentPostLocation, rawPostContent, content := None, None, null;
      nextElement, prevElement, parent := Unset, Unset, Unset;
      prevSibling, nextSibling := None, None;
      parentQueries, siblingQueries, contentLoads, fieldLookups, prepCalls := 0, 0, 0, 0, 0;
    }

    /** The structure coordinates. */
    function Pos(): Position
      reads this
    {
      Position(root, lft, rgt, level)
    }

    /** `getStatus`. */
    function Status(): Status
      reads this
    {
      GetStatus(archived, enabled, localeEnabled)
    }

    /** The coordinates of the cached parent, when one is cached. */
    function ParentPos(): Option<Position>
      reads this, if parent.Present? then {parent.value} else {}
    {
      if parent.Present? then Some(parent.value.Pos()) else None
    }

    /** `getContentFromPost`: the raw post content, or an empty array before any post. */
    function GetContentFromPost(): map<string, Value>
      reads this
    {
      if rawPostContent.Some? then rawPostContent.value else map[]
    }

    // ---- parent -------------------------------------------------------------

    /**
     * `getParent`. `found` is what the distance-1 ancestors query returns.
     * The query runs only while the slot is unset; a missing parent is
     * remembered as `Absent` and never asked for again.
     */
    method GetParent(found: Option<Element>) returns (p: Option<Element>)
      modifies this`parent, this`parentQueries
      ensures old(parent) == Unset ==>
                parent == (if found.Some? then Present(found.value) else Absent)
                && parentQueries == old(parentQueries) + 1
      ensures old(parent) != Unset ==> parent == old(parent) && parentQueries == old(parentQueries)
      ensures parent != Unset
      ensures p == FromSlot(parent)
    {
      if parent == Unset {
        parentQueries := parentQueries + 1;
        if found.Some? {
          parent := Present(found.value);
        } else {
          parent := Absent;
        }
      }
      if parent.Present? {
        p := Some(parent.value);
      } else {
        p := None;
      }
    }

    /**
     * `setParent`: caches the parent (PHP `null` leaves the slot unset, so the
     * next `getParent` queries again) and sets the level one below it, or to 1.
     * The nested-set bounds and the root are not touched.
     */
    method SetParent(p: Option<Element>)
      modifies this`parent, this`level
      ensures parent == (if p.Some? then Present(p.value) else Unset)
      ensures level == if p.Some? then old(p.value.level) + 1 else 1
    {
      if p.Some? {
        level := p.value.level + 1;
        parent := Present(p.value);
      } else {
        level := 1;
        parent := Unset;
      }
    }

    /**
     * `isSiblingOf`. `found` is what the parent query would return; it is
     * consulted (through `getParent`) only when the level and adjacency tests
     * leave the answer open.
     */
    method IsSiblingOf(other: Element, found: Option<Element>) returns (b: bool)
      modifies this`parent, this`parentQueries
      ensures b == Structure.IsSiblingOf(Pos(), other.Pos(), ParentPos())
      ensures Pos() == old(Pos()) && other.Pos() == old(other.Pos())
      ensures root != other.root || level == 0 || level != other.level || level == 1
              || IsPrevSiblingOf(Pos(), other.Pos()) || IsNextSiblingOf(Pos(), other.Pos())
              ==> parent == old(parent) && parentQueries == old(parentQueries)
      ensures old(parent) != Unset ==> parent == old(parent) && parentQueries == old(parentQueries)
      ensures root == other.root && level == other.level && level > 1
              && !IsPrevSiblingOf(Pos(), other.Pos()) && !IsNextSiblingOf(Pos(), other.Pos())
              && old(parent) == Unset
              ==> parent == (if found.Some? then Present(found.value) else Absent)
                  && parentQueries == old(parentQueries) + 1
    {
      if root == other.root && level != 0 && level == other.level {
        if level == 1 || IsPrevSiblingOf(Pos(), other.Pos()) || IsNextSiblingOf(Pos(), other.Pos()) {
          b := true;
        } else {
          var p := GetParent(found);
          b := p.Some? && IsDescendantOf(other.Pos(), p.value.Pos());
        }
      } else {
        b := false;
      }
    }

    // ---- next / previous ----------------------------------------------------

    /**
     * `getNext(criteria)`: with no criteria and a slot set by `setNext`, the
     * slot's element (nothing for `false`); otherwise the element after this
     * one in the list of the given criteria, or of `defaultQuery` when none is
     * given. Nothing is cached.
     */
    method GetNext(criteria: Option<Query>, defaultQuery: Query) returns (r: Option<Element>)
      ensures criteria.None? && nextElement != Unset ==> r == FromSlot(nextElement)
      ensures criteria.Some? || nextElement == Unset ==>
                r == RelativeElement(if criteria.Some? then criteria.value else defaultQuery, id, 1)
    {
      if criteria.Some? || nextElement == Unset {
        r := RelativeElement(if criteria.Some? then criteria.value else defaultQuery, id, 1);
      } else if nextElement.Present? {
        r := Some(nextElement.value);
      } else {
        r := None;
      }
    }

    /** `getPrev(criteria)`: as `GetNext`, one place towards the front. */
    method GetPrev(criteria: Option<Query>, defaultQuery: Query) returns (r: Option<Element>)
      ensures criteria.None? && prevElement != Unset ==> r == FromSlot(prevElement)
      ensures criteria.Some? || prevElement == Unset ==>
                r == RelativeElement(if criteria.Some? then criteria.value else defaultQuery, id, -1)
    {
      if criteria.Some? || prevElement == Unset {
        r := RelativeElement(if criteria.Some? then criteria.value else defaultQuery, id, -1);
      } else if prevElement.Present? {
        r := Some(prevElement.value);
      } else {
        r := None;
      }
    }

    /** `setNext`: an element, `false` (`Absent`) or `null` (`Unset`). */
    method SetNext(e: Cached<Element>)
      modifies this`nextElement
      ensures nextElement == e
    {
      nextElement := e;
    }

    /** `setPrev`: an element, `false` (`Absent`) or `null` (`Unset`). */
    method SetPrev(e: Cached<Element>)
      modifies this`prevElement
      ensures prevElement == e
    {
      prevElement := e;
    }

    // ---- siblings -----------------------------------------------------------

    /**
     * `getPrevSibling`. `found` is what the unfiltered previous-sibling query
     * returns. A `null` answer leaves the slot unset (`isset` is false for
     * `null`), so it is asked again next time.
     */
    method GetPrevSibling(found: Option<Element>) returns (r: Option<Element>)
      modifies this`prevSibling, this`siblingQueries
      ensures old(prevSibling).Some? ==>
                r == old(prevSibling) && prevSibling == old(prevSibling) && siblingQueries == old(siblingQueries)
      ensures old(prevSibling).None? ==>
                r == found && prevSibling == found && siblingQueries == old(siblingQueries) + 1
    {
      if prevSibling.None? {
        siblingQueries := siblingQueries + 1;
        prevSibling := found;
      }
      r := prevSibling;
    }

    /** `getNextSibling`: as `GetPrevSibling`, for the following sibling. */
    method GetNextSibling(found: Option<Element>) returns (r: Option<Element>)
      modifies this`nextSibling, this`siblingQueries
      ensures old(nextSibling).Some? ==>
                r == old(nextSibling) && nextSibling == old(nextSibling) && siblingQueries == old(siblingQueries)
      ensures old(nextSibling).None? ==>
                r == found && nextSibling == found && siblingQueries == old(siblingQueries) + 1
    {
      if nextSibling.None? {
        siblingQueries := siblingQueries + 1;
        nextSibling := found;
      }
      r := nextSibling;
    }

    // ---- content ------------------------------------------------------------

    /**
     * `getContent`. `stored` is the content store's answer for this element.
     * Once a content model is attached it is returned without asking the store;
     * otherwise the stored one is attached, or a blank one created.
     */
    method GetContent(stored: Option<Content>) returns (c: Content)
      modifies this`content, this`contentLoads
      ensures content == c
      ensures old(content) != null ==> c == old(content) && contentLoads == old(contentLoads)
      ensures old(content) == null ==> contentLoads == old(contentLoads) + 1
      ensures old(content) == null && stored.Some? ==> c == stored.value
      ensures old(content) == null && stored.None? ==> fresh(c) && c.values == map[]
    {
      if content == null {
        contentLoads := contentLoads + 1;
        if stored.Some? {
          content := stored.value;
        } else {
          content := new Content();
        }
      }
      c := content;
    }

    /**
     * `setContent`: an attribute array is merged into the attached content
     * model (a blank one is created first when none is attached); a content
     * model replaces the attached one; anything else is ignored.
     */
    method SetContent(arg: ContentArg)
      modifies this`content, content
      ensures arg.Attributes? ==>
                content != null
                && content.values == (if old(content) != null then old(content.values) else map[]) + arg.attributes
      ensures arg.Attributes? && old(content) == null ==> fresh(content)
      ensures arg.Attributes? && old(content) != null ==> content == old(content)
      ensures arg.Model? ==> content == arg.model && content.values == old(arg.model.values)
      ensures arg.Other? ==> content == old(content) && (content != null ==> content.values == old(content.values))
      ensures arg.Model? && old(content) != null ==> old(content).values == old(content.values)
    {
      match arg
      case Attributes(attributes) =>
        if content == null {
          content := new Content();
        }
        content.values := content.values + attributes;
      case Model(m) =>
        content := m;
      case Other =>
    }

    /** `setContentPostLocation`. */
    method SetContentPostLocation(location: Option<string>)
      modifies this`contentPostLocation
      ensures contentPostLocation == location
    {
      contentPostLocation := location;
    }

    /**
     * `setContentFromPost` with an array of posted values. `layout` is the
     * element's field layout (`None` when it has none), each entry the field
     * it resolves to; `uploaded(name)` says whether files were uploaded under
     * that name; `hook` is `prepValueFromPost`. The raw post content and the
     * content model end as `Posted` describes: see PostedRaw, PostedSkips and
     * PostedValue for what that means per handle.
     */
    method SetContentFromPost(post: map<string, Value>, layout: Option<seq<Option<Field>>>,
                              stored: Option<Content>, uploaded: string -> bool,
                              hook: (FieldType, Value) -> Value)
      modifies this`rawPostContent, this`content, this`contentLoads, content
      modifies if stored.Some? then {stored.value} else {}
      ensures layout.None? ==> rawPostContent == Some(old(GetContentFromPost()))
                               && content == old(content)
                               && (content != null ==> content.values == old(content.values))
      ensures layout.Some? ==> content != null
      ensures layout.Some? && old(content) != null ==> content == old(content)
      ensures layout.Some? && old(content) == null && stored.Some? ==> content == stored.value
      ensures layout.Some? && old(content) == null && stored.None? ==> fresh(content)
      ensures layout.Some? ==>
                var st := Posted(PostState(old(GetContentFromPost()),
                                           old(if content != null then content.values
                                               else if stored.Some? then stored.value.values
                                               else map[])),
                                 layout.value, post, contentPostLocation, uploaded, hook);
                rawPostContent == Some(st.raw) && content.values == st.values
      ensures stored.Some? && stored.value != content ==> unchanged(stored.value)
    {
      if rawPostContent.None? {
        rawPostContent := Some(map[]);
      }
      if layout.Some? {
        var c := GetContent(stored);
        var fields := layout.value;
        ghost var st0 := PostState(rawPostContent.value, c.values);
        var i := 0;
        while i < |fields|
          modifies this`rawPostContent, c
          invariant 0 <= i <= |fields|
          invariant rawPostContent.Some?
          invariant PostState(rawPostContent.value, c.values)
                    == Posted(st0, fields[..i], post, contentPostLocation, uploaded, hook)
        {
          assert fields[..i + 1][..i] == fields[..i];
          var f := fields[i];
          if f.Some? {
            var h := f.value.handle;
            var value;
            var skip := false;
            if IsSet(post, h) {
              value := post[h];
              rawPostContent := Some(rawPostContent.value[h := value]);
            } else if Uploaded(contentPostLocation, h, uploaded) {
              value := Null;
            } else {
              skip := true;
            }
            if !skip {
              if f.value.fieldType.Some? {
                value := hook(f.value.fieldType.value, value);
              }
              c.values := c.values[h := value];
            }
          }
          i := i + 1;
        }
        assert fields[..i] == fields;
      }
    }

    // ---- fields -------------------------------------------------------------

    /** `getFieldContext`. */
    function FieldContext(service: ContentService): string
      reads this, service
    {
      if ownFieldContext.Some? then ownFieldContext.value else service.fieldContext
    }

    /**
     * `getFieldByHandle`. `registry(context, handle)` is the field registry's
     * answer under the given current field context. The service's context is
     * switched to this element's for the lookup and switched back afterwards;
     * answers, including "no such field", are cached per handle.
     */
    method GetFieldByHandle(handle: string, service: ContentService,
                            registry: (string, string) -> Option<Field>) returns (f: Option<Field>)
      modifies this`fieldsByHandle, this`fieldLookups, service
      ensures service.fieldContext == old(service.fieldContext)
      ensures handle in old(fieldsByHandle) ==>
                f == old(fieldsByHandle[handle]) && fieldsByHandle == old(fieldsByHandle)
                && fieldLookups == old(fieldLookups)
      ensures handle !in old(fieldsByHandle) ==>
                f == registry(old(FieldContext(service)), handle)
                && fieldsByHandle == old(fieldsByHandle)[handle := f]
                && fieldLookups == old(fieldLookups) + 1
    {
      if handle !in fieldsByHandle {
        var original := service.fieldContext;
        service.fieldContext := FieldContext(service);
        fieldLookups := fieldLookups + 1;
        fieldsByHandle := fieldsByHandle[handle := registry(service.fieldContext, handle)];
        service.fieldContext := original;
      }
      f := fieldsByHandle[handle];
    }

    /**
     * `getFieldValue`. A prepared value, `null` included, is cached per handle
     * and returned from the cache afterwards. Otherwise: an unknown handle is
     * an error that leaves the prepared cache as it was; a known one reads the
     * content model's value (`null` when unset), passes it through `prepValue`
     * when the field has a type, and caches the result.
     */
    method GetFieldValue(handle: string, service: ContentService,
                         registry: (string, string) -> Option<Field>,
                         stored: Option<Content>, prepValue: (FieldType, Value) -> Value)
      returns (r: FieldValue)
      modifies this`preppedContent, this`prepCalls, this`fieldsByHandle, this`fieldLookups
      modifies this`content, this`contentLoads, service
      ensures service.fieldContext == old(service.fieldContext)
      ensures handle in preppedContent ==> r == Found(preppedContent[handle])
      ensures handle in old(preppedContent) ==>
                preppedContent == old(preppedContent) && prepCalls == old(prepCalls)
                && fieldsByHandle == old(fieldsByHandle) && content == old(content)
      ensures handle !in old(preppedContent) && handle in old(fieldsByHandle)
              ==> fieldLookups == old(fieldLookups)
      ensures handle !in old(preppedContent) ==>
                handle in fieldsByHandle
                && fieldsByHandle[handle] == (if handle in old(fieldsByHandle) then old(fieldsByHandle[handle])
                                              else registry(old(FieldContext(service)), handle))
      ensures handle !in old(preppedContent) && fieldsByHandle[handle].None? ==>
                r == NoSuchField(handle) && preppedContent == old(preppedContent)
                && prepCalls == old(prepCalls) && content == old(content)
      ensures handle !in old(preppedContent) && fieldsByHandle[handle].Some? ==>
                content != null
                && r == Found(Prep(fieldsByHandle[handle].value,
                                   if IsSet(content.values, handle) then content.values[handle] else Null,
                                   prepValue))
                && preppedContent == old(preppedContent)[handle := r.value]
      ensures handle !in old(preppedContent) && fieldsByHandle[handle].Some? ==>
                && (old(content) != null ==> content == old(content))
                && (old(content) == null && stored.Some? ==> content == stored.value)
                && (old(content) == null && stored.None? ==> fresh(content) && content.values == map[])
    {
      if handle !in preppedContent {
        var field := GetFieldByHandle(handle, service, registry);
        if field.None? {
          return NoSuchField(handle);
        }
        var c := GetContent(stored);
        var value := if IsSet(c.values, handle) then c.values[handle] else Null;
        if field.value.fieldType.Some? {
          prepCalls := prepCalls + 1;
          value := prepValue(field.value.fieldType.value, value);
        }
        preppedContent := preppedContent[handle := value];
      }
      r := Found(preppedContent[handle]);
    }

    /**
     * `__get` as an explicit two-tier lookup: a built-in property first
     * (`builtIn` holds those the object defines), then a custom field of that
     * handle, else an unknown-property error.
     */
    method GetProperty(name: string, builtIn: map<string, Value>, service: ContentService,
                       registry: (string, string) -> Option<Field>,
                       stored: Option<Content>, prepValue: (FieldType, Value) -> Value)
      returns (r: Property)
      modifies this`preppedContent, this`prepCalls, this`fieldsByHandle, this`fieldLookups
      modifies this`content, this`contentLoads, service
      ensures service.fieldContext == old(service.fieldContext)
      ensures name in builtIn ==>
                r == Attribute(builtIn[name]) && fieldsByHandle == old(fieldsByHandle)
                && preppedContent == old(preppedContent) && content == old(content)
      ensures name !in builtIn ==>
                name in fieldsByHandle
                && fieldsByHandle[name] == (if name in old(fieldsByHandle) then old(fieldsByHandle[name])
                                            else registry(old(FieldContext(service)), name))
      ensures name in old(preppedContent) ==> preppedContent == old(preppedContent)
      ensures name !in builtIn && fieldsByHandle[name].None? ==>
                r == UnknownProperty(name) && preppedContent == old(preppedContent) && content == old(content)
      ensures name !in builtIn && fieldsByHandle[name].Some? ==>
                name in preppedContent && r == FieldProperty(preppedContent[name])
      ensures name !in builtIn && fieldsByHandle[name].Some? && name !in old(preppedContent) ==>
                && content != null
                && r == FieldProperty(Prep(fieldsByHandle[name].value,
                                           if IsSet(content.values, name) then content.values[name] else Null,
                                           prepValue))
                && preppedContent == old(preppedContent)[name := r.value]
                && (old(content) != null ==> content == old(content))
                && (old(content) == null && stored.Some? ==> content == stored.value)
                && (old(content) == null && stored.None? ==> fresh(content) && content.values == map[])
    {
      if name in builtIn {
        return Attribute(builtIn[name]);
      }
      var field := GetFieldByHandle(name, service, registry);
      if field.None? {
        return UnknownProperty(name);
      }
      var v := GetFieldValue(name, service, registry, stored, prepValue);
      match v
      case Found(x) => r := FieldProperty(x);
      case NoSuchField(_) => assert false; r := UnknownProperty(name);
    }
  }

  /**
   * What callers see of the value cache: a second `getFieldValue` for a
   * handle returns the first answer without preparing it again.
   */
  method FieldValueCachedOnce(e: Element, handle: string, service: ContentService,
                              registry: (string, string) -> Option<Field>, stored: Option<Content>,
                              prepValue: (FieldType, Value) -> Value)
    returns (first: FieldValue, second: FieldValue)
    modifies e, service
    ensures first.Found? ==> second == first
  {
    first := e.GetFieldValue(handle, service, registry, stored, prepValue);
    var calls := e.prepCalls;
    second := e.GetFieldValue(handle, service, registry, stored, prepValue);
    assert first.Found? ==> e.prepCalls == calls;
  }

  /**
   * What callers see of the parent cache: a second `getParent` returns the
   * first answer without querying again, and after `setParent(q)` the parent
   * is `q`, again without a query.
   */
  method ParentCachedOnce(e: Element, found1: Option<Element>, found2: Option<Element>, q: Element)
    returns (first: Option<Element>, second: Option<Element>, afterSet: Option<Element>)
    modifies e
    ensures second == first && (old(e.parent) == Unset ==> first == found1)
    ensures afterSet == Some(q)
  {
    first := e.GetParent(found1);
    var queries := e.parentQueries;
    second := e.GetParent(found2);
    assert e.parentQueries == queries;
    e.SetParent(Some(q));
    afterSet := e.GetParent(found1);
    assert e.parentQueries == queries;
  }
}

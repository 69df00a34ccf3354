/**
 * Element sources (src/base/Element.php): the nested source arrays an element
 * type defines, the depth-first search `_findSource` runs through them, and the
 * per-context memo of `getSourceByKey`.
 *
 * A PHP source array is an ordered map. Here a source list is a sequence of
 * keyed entries looked up by first match, and a source is its scalar
 * attributes plus an optional `nested` list. An empty source array is falsy in
 * PHP, which decides whether a nested hit counts.
 */
module Sources {

  import opened Wrappers

  datatype Source = Source(attributes: map<string, string>, nested: Option<SourceList>)

  datatype Entry = Entry(key: string, source: Source)

  /** A source array: its entries in order. */
  datatype SourceList = SourceList(entries: seq<Entry>)

  /** PHP truthiness of a source array: it has at least one key. */
  predicate Truthy(s: Source)
  {
    |s.attributes| > 0 || s.nested.Some?
  }

  /** PHP `!empty($source['nested'])`. */
  predicate HasNested(s: Source)
  {
    s.nested.Some? && |s.nested.value.entries| > 0
  }

  /** `$sources[$key]`, present when some entry carries `key`; the first such entry. */
  function Lookup(entries: seq<Entry>, key: string): (r: Option<Source>)
    ensures r.Some? <==> exists i :: 0 <= i < |entries| && entries[i].key == key
    ensures r.Some? ==> exists i :: 0 <= i < |entries| && entries[i] == Entry(key, r.value)
  {
    if entries == [] then None
    else if entries[0].key == key then Some(entries[0].source)
    else Lookup(entries[1..], key)
  }

  /**
   * `_findSource`: the source stored under `key` at this level, or else the
   * first truthy hit found in the nested lists, in order.
   */
  function FindSource(key: string, sources: SourceList): Option<Source>
    decreases sources, 1, 0
  {
    if Lookup(sources.entries, key).Some? then Lookup(sources.entries, key)
    else FindNested(key, sources, 0)
  }

  /** The `foreach` of `_findSource`, from entry `i` on. */
  function FindNested(key: string, sources: SourceList, i: nat): Option<Source>
    requires i <= |sources.entries|
    decreases sources, 0, |sources.entries| - i
  {
    if i == |sources.entries| then None
    else
      var s := sources.entries[i].source;
      assert sources.entries[i] in sources.entries;
      var hit := if HasNested(s) then FindSource(key, s.nested.value) else None;
      if hit.Some? && Truthy(hit.value) then hit
      else FindNested(key, sources, i + 1)
  }

  /** The list nested under entry `i`, when it is non-empty. */
  predicate NestedAt(sources: SourceList, i: int)
  {
    0 <= i < |sources.entries| && HasNested(sources.entries[i].source)
  }

  /** `s` is stored under `key` in `sources` or in a nested list below them. */
  ghost predicate Reachable(key: string, sources: SourceList, s: Source)
    decreases sources
  {
    (exists i :: 0 <= i < |sources.entries| && sources.entries[i] == Entry(key, s))
    || exists i :: NestedAt(sources, i)
                   && (assert sources.entries[i] in sources.entries;
                       Reachable(key, sources.entries[i].source.nested.value, s))
  }

  /** Some entry, at any depth, carries `key`. */
  ghost predicate Occurs(key: string, sources: SourceList)
    decreases sources
  {
    (exists i :: 0 <= i < |sources.entries| && sources.entries[i].key == key)
    || exists i :: NestedAt(sources, i)
                   && (assert sources.entries[i] in sources.entries;
                       Occurs(key, sources.entries[i].source.nested.value))
  }

  /** Every source, at any depth, is a non-empty array. */
  ghost predicate AllTruthy(sources: SourceList)
    decreases sources
  {
    forall i :: 0 <= i < |sources.entries| ==>
      Truthy(sources.entries[i].source)
      && (NestedAt(sources, i) ==>
            assert sources.entries[i] in sources.entries;
            AllTruthy(sources.entries[i].source.nested.value))
  }

  /** Whatever `_findSource` returns is stored under `key` somewhere in the tree. */
  lemma {:induction false} FindSourceSound(key: string, sources: SourceList)
    ensures FindSource(key, sources).Some? ==> Reachable(key, sources, FindSource(key, sources).value)
    decreases sources, 1, 0
  {
    if Lookup(sources.entries, key).None? {
      FindNestedSound(key, sources, 0);
    }
  }

  lemma {:induction false} FindNestedSound(key: string, sources: SourceList, i: nat)
    requires i <= |sources.entries|
    ensures FindNested(key, sources, i).Some? ==> Reachable(key, sources, FindNested(key, sources, i).value)
    decreases sources, 0, |sources.entries| - i
  {
    if i < |sources.entries| {
      var s := sources.entries[i].source;
      assert sources.entries[i] in sources.entries;
      var hit := if HasNested(s) then FindSource(key, s.nested.value) else None;
      if hit.Some? && Truthy(hit.value) {
        FindSourceSound(key, s.nested.value);
        assert NestedAt(sources, i) && Reachable(key, s.nested.value, hit.value);
      } else {
        FindNestedSound(key, sources, i + 1);
      }
    }
  }

  /** A key that occurs nowhere in the tree is not found. */
  lemma {:induction false} FindSourceAbsent(key: string, sources: SourceList)
    requires !Occurs(key, sources)
    ensures FindSource(key, sources) == None
    decreases sources, 1, 0
  {
    FindNestedAbsent(key, sources, 0);
  }

  lemma {:induction false} FindNestedAbsent(key: string, sources: SourceList, i: nat)
    requires !Occurs(key, sources) && i <= |sources.entries|
    ensures FindNested(key, sources, i) == None
    decreases sources, 0, |sources.entries| - i
  {
    if i < |sources.entries| {
      var s := sources.entries[i].source;
      assert sources.entries[i] in sources.entries;
      if HasNested(s) {
        assert NestedAt(sources, i);
        FindSourceAbsent(key, s.nested.value);
      }
      FindNestedAbsent(key, sources, i + 1);
    }
  }

  /** When every source is a non-empty array, a key that occurs anywhere is found. */
  lemma {:induction false} FindSourceComplete(key: string, sources: SourceList)
    requires AllTruthy(sources) && Occurs(key, sources)
    ensures FindSource(key, sources).Some? && Truthy(FindSource(key, sources).value)
    decreases sources, 1, 0
  {
    if Lookup(sources.entries, key).Some? {
      var i :| 0 <= i < |sources.entries| && sources.entries[i] == Entry(key, Lookup(sources.entries, key).value);
      assert Truthy(sources.entries[i].source);
    } else {
      var j :| NestedAt(sources, j) && Occurs(key, sources.entries[j].source.nested.value);
      FindNestedComplete(key, sources, 0, j);
    }
  }

  lemma {:induction false} FindNestedComplete(key: string, sources: SourceList, i: nat, j: nat)
    requires AllTruthy(sources) && i <= j
    requires NestedAt(sources, j) && Occurs(key, sources.entries[j].source.nested.value)
    ensures FindNested(key, sources, i).Some? && Truthy(FindNested(key, sources, i).value)
    decreases sources, 0, |sources.entries| - i
  {
    var s := sources.entries[i].source;
    assert sources.entries[i] in sources.entries;
    if i == j {
      assert AllTruthy(s.nested.value);
      FindSourceComplete(key, s.nested.value);
    } else {
      var hit := if HasNested(s) then FindSource(key, s.nested.value) else None;
      if !(hit.Some? && Truthy(hit.value)) {
        FindNestedComplete(key, sources, i + 1, j);
      }
    }
  }

  /** The cache key of `getSourceByKey`: the context when truthy, else `*`. */
  function ContextKey(context: Option<string>): string
  {
    if context.Some? && context.value != "" && context.value != "0" then context.value else "*"
  }

  /** The static per-context memo of `getSources` results. */
  class SourceCache {
    var sourcesByContext: map<string, SourceList>
    ghost var sourceCalls: nat

    constructor ()
      ensures sourcesByContext == map[]
    {
      sourcesByContext := map[];
      sourceCalls := 0;
    }

    /**
     * `getSourceByKey`. `getSources(context)` is the element type's source
     * list (its `false` is the empty list); it is asked once per context key
     * and its answer searched with `_findSource`.
     */
    method GetSourceByKey(key: string, context: Option<string>,
                          getSources: Option<string> -> SourceList) returns (r: Option<Source>)
      modifies this
      ensures var k := ContextKey(context);
        && (k in old(sourcesByContext) ==>
              sourcesByContext == old(sourcesByContext) && sourceCalls == old(sourceCalls))
        && (k !in old(sourcesByContext) ==>
              sourcesByContext == old(sourcesByContext)[k := getSources(context)]
              && sourceCalls == old(sourceCalls) + 1)
        && k in sourcesByContext
        && r == FindSource(key, sourcesByContext[k])
    {
      var k := ContextKey(context);
      if k !in sourcesByContext {
        sourceCalls := sourceCalls + 1;
        sourcesByContext := sourcesByContext[k := getSources(context)];
      }
      r := FindSource(key, sourcesByContext[k]);
    }
  }
}

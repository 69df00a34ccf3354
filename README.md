# Elements, template matching and scripted console tests, in Dafny

This project models three parts of a PHP content-management code base and
proves properties of the model.

- **The element** (`src/base/Element.php`). This covers:
  - the nested-set coordinates (`root`, `lft`, `rgt`, `level`) and the tree
    predicates computed from them;
  - the derived status;
  - the memoising caches for the parent, the next and previous element, the
    siblings, the content model, fields and prepared field values;
  - the neighbour search `_getRelativeElement`;
  - the depth-first source search `_findSource` with its per-context memo
    `getSourceByKey`;
  - the layout loop of `setContentFromPost`.

  The collaborators the element calls are inputs: criteria queries, the
  content store, the field registry and the field-type hooks. Ghost counters
  record how often each collaborator is consulted, so contracts can say
  "returns the cached answer without asking again".
- **Template matching in the URL manager** (`src/business/web/BlocksUrlManager.php`).
  This covers `normalizeTrailingSlash`, the steps of `matchTemplate`, the
  dispatch in `processTemplateMatching` and the memo of `getCurrentModule`.
  The filesystem probe and the module registry are functions given as
  arguments.
- **The scripted console-command test driver** (`src/test/console/CommandTest.php`).
  This covers the event chain and its builders, the cursor `getNextItem`,
  `runHandlerCheck`, the stubbed console handlers and `run`. One run of the
  command's action is given as the console calls it made and the exit code it
  returned.

Files:

| file | module | contents |
|---|---|---|
| `wrappers.dfy` | `Wrappers` | `Option`, and `Cached` for the caches |
| `structure.dfy` | `Structure` | coordinates, tree predicates, status |
| `element.dfy` | `Elements` | the `Element` class, relative search, post loop |
| `sources.dfy` | `Sources` | `_findSource` and `getSourceByKey` |
| `url_manager.dfy` | `UrlManager` | string primitives and `BlocksUrlManager` |
| `command_test.dfy` | `ConsoleCommandTest` | `CommandTest` |

How PHP is represented:

- **Null coordinates.** A coordinate or id that is PHP `null` is 0. Against
  non-negative integers, PHP's loose comparisons and `+ 1` treat `null` as 0,
  so the encoding agrees with PHP for the coordinates a nested set holds.
  Negative coordinates are not represented (see "Left out").
- **Three-state caches.** `Cached` has `Unset` (PHP `null`: not known yet),
  `Absent` (the `false` sentinel: known to be missing) and `Present`.
- **Sibling caches.** `getPrevSibling` and `getNextSibling` store what the
  query returned. A `null` answer fails the `isset` test, so the query runs
  again on the next call. The model follows the code here: a missing sibling
  is never remembered. The parent cache, by contrast, remembers absence with
  `false`.
- **Total descendants.** `getTotalDescendants` divides with PHP `/`, which
  yields a float when the dividend is odd. The model returns a `real`, and
  `Structure.TotalDescendantsWhole` shows the result is a whole number
  whenever the interval holds an even number of slots.
- **Extension trimming.** `matchTemplate` trims the request extension with
  `rtrim` and the character mask `'.' . extension`. This strips any trailing
  run of those characters, not only the suffix: a request for `email.html`
  looks for the template `emai`. The model keeps this behaviour, and
  `UrlManager.ExtensionTrimEatsName` proves this example.
- **Module prefix.** The second candidate of `matchTemplate` joins the module
  name to the path without a `/` (`moduleName . 'foo/index'`), unlike the
  first candidate. The model keeps this difference.

## Model

| member | source | states |
|---|---|---|
| Structure.IsAncestorOf | src/base/Element.php:1218-1221 | definition: same root and the other interval strictly inside this one; see AncestorDescendantConverse |
| Structure.IsDescendantOf | src/base/Element.php:1230-1233 | definition: same root and this interval strictly inside the other; see AncestorDescendantConverse |
| Structure.IsParentOf | src/base/Element.php:1242-1245 | definition: same root, one level up, and an ancestor; see ParentChildConverse |
| Structure.IsChildOf | src/base/Element.php:1254-1257 | definition: same root, one level down, and a descendant; see ParentChildConverse |
| Structure.IsPrevSiblingOf | src/base/Element.php:1295-1298 | definition: same root and level, and this interval ends right before the other starts; see PrevNextSiblingConverse |
| Structure.IsNextSiblingOf | src/base/Element.php:1307-1310 | definition: same root and level, and this interval starts right after the other ends; see PrevNextSiblingConverse |
| Structure.HasDescendants | src/base/Element.php:1191-1194 | definition: both bounds set (non-null, non-zero) and at least one slot between them; see TotalDescendants |
| Structure.IsSiblingOf | src/base/Element.php:1266-1286 | false when roots or levels differ or the level is unset; true for two level-1 elements of one tree and for adjacent siblings; otherwise true exactly when the other element lies inside this element's parent |
| Structure.TotalDescendants | src/base/Element.php:1201-1209 | with descendants, twice the count is `rgt - lft - 1` and the count is positive; without, it is 0 |
| Structure.GetStatus | src/base/Element.php:936-950 | archived exactly when the flag is set; otherwise disabled exactly when the element or its locale is disabled; enabled exactly when neither holds |
| Structure.AncestorDescendantConverse | src/base/Element.php:1218-1233 | `isAncestorOf(a, b)` equals `isDescendantOf(b, a)`; nothing is its own ancestor or descendant; neither relates two trees |
| Structure.ParentChildConverse | src/base/Element.php:1242-1257 | `isParentOf(a, b)` equals `isChildOf(b, a)`; a parent is an ancestor one level up, a child a descendant one level down; neither relates two trees |
| Structure.PrevNextSiblingConverse | src/base/Element.php:1295-1310 | `isPrevSiblingOf(a, b)` equals `isNextSiblingOf(b, a)`; neither relates two trees |
| Structure.TotalDescendantsWhole | src/base/Element.php:1191-1209 | when `rgt - lft - 1` is even, the total is `(rgt - lft - 1) / 2` with descendants and 0 without |
| Structure.SmallTreeExample | src/base/Element.php:1218-1310 | on a root with two children, one with a child: ancestry, sibling order, child level and the descendant count 4 |
| Elements.Content.constructor | src/base/Element.php:1364-1369 | `createContent` yields a content model with no values |
| Elements.IndexOf | src/base/Element.php:1658 | `array_search`: the first index holding the id; none exactly when the id is absent |
| Elements.RelativeId | src/base/Element.php:1648-1671 | a neighbour exists exactly when the id is set, occurs in the list and index + dir is inside it; it is `ids[index + dir]` |
| Elements.RelativeElement | src/base/Element.php:1648-1671 | the element is the one the query returns for the neighbour id, and one is returned whenever that id exists and resolves |
| Elements.PostStep | src/base/Element.php:1431-1463 | definition of one loop iteration: a missing field is skipped; a posted value is stored raw and, through the hook, in the content; an upload-only field stores the hooked `null`; otherwise nothing changes; see PostedRaw, PostedSkips, PostedValue |
| Elements.Posted | src/base/Element.php:1429-1465 | definition: the iterations over the layout's fields, in order; see PostedRaw, PostedSkips, PostedValue and SetContentFromPost |
| Elements.PostedRaw | src/base/Element.php:1429-1451 | after the layout loop, a handle has a raw entry exactly when it had one or a layout field carries it with a non-null posted value; that entry is the posted value before any hook |
| Elements.PostedSkips | src/base/Element.php:1425-1466 | a handle with neither a posted value nor an uploaded file keeps its raw entry and its content value unchanged |
| Elements.PostedValue | src/base/Element.php:1425-1466 | with distinct handles, a posted field ends with the hook applied to its posted value; an upload-only field ends with the hook applied to `null` and gets no raw entry |
| Elements.Element.constructor | src/base/Element.php:48-158 | a hydrated element has its id, flags and coordinates, and every cache empty; `getContentFromPost` gives `[]` |
| Elements.Element.Status | src/base/Element.php:936-950 | definition: `getStatus` applied to this element's archived, enabled and locale-enabled flags; see Structure.GetStatus |
| Elements.Element.GetParent | src/base/Element.php:1019-1039 | queries only while the slot is unset; caches the result, or `false` when none; afterwards answers from the cache without a query |
| Elements.Element.SetParent | src/base/Element.php:1048-1060 | caches the parent (null leaves the slot unset); the level becomes the parent's plus one, or 1; nothing else changes |
| Elements.Element.IsSiblingOf | src/base/Element.php:1266-1286 | the answer is `Structure.IsSiblingOf` of the coordinates and the parent; the parent is not fetched when the level and adjacency tests decide; when they do not, an unset parent slot ends holding the query's answer (or `false`), and a set one is kept |
| Elements.Element.GetNext | src/base/Element.php:959-969 | without criteria and with a slot set by `setNext`, the slot's element (nothing for `false`); otherwise the following element of the given or default criteria |
| Elements.Element.GetPrev | src/base/Element.php:978-988 | as GetNext, with the preceding element |
| Elements.Element.SetNext | src/base/Element.php:997-1000 | the slot holds the given element, `false` or `null` |
| Elements.Element.SetPrev | src/base/Element.php:1009-1012 | the slot holds the given element, `false` or `null` |
| Elements.Element.GetPrevSibling | src/base/Element.php:1151-1164 | a cached sibling is returned without a query; otherwise the query's answer is returned and stored, and a missing one is asked for again |
| Elements.Element.GetNextSibling | src/base/Element.php:1171-1184 | as GetPrevSibling, for the following sibling |
| Elements.Element.GetContent | src/base/Element.php:1360-1373 | an attached content model is returned without loading; otherwise the stored one is attached, or a new blank one |
| Elements.Element.SetContent | src/base/Element.php:1382-1397 | attributes merge into the attached model (created blank when missing); a model replaces the attached one, leaving the detached one's values as they were; anything else changes nothing |
| Elements.Element.SetContentPostLocation | src/base/Element.php:1503-1506 | the post location is the given one |
| Elements.Element.GetContentFromPost | src/base/Element.php:1474-1484 | definition: the raw post content once it has been set, else the empty array; see SetContentFromPost and the constructor |
| Elements.Element.SetContentFromPost | src/base/Element.php:1406-1484 | with no layout, only the raw content is initialised; with one, the content model is loaded as by getContent, and the raw content and values end as the layout loop `Posted` gives (see PostedRaw, PostedSkips, PostedValue); a stored model that is not attached keeps its values |
| Elements.FieldValueCachedOnce | src/base/Element.php:1516-1551 | a second `getFieldValue` of a found handle gives the first answer |
| Elements.ParentCachedOnce | src/base/Element.php:1019-1060 | a second `getParent` gives the first answer, which is the query's when the slot started unset; after `setParent(q)`, `getParent` gives `q` |
| Elements.Element.FieldContext | src/base/Element.php:1578-1581 | definition: the content service's current field context; an element-specific context, which only a subclass can supply, would take its place (none in the base class, as the constructor states); see GetFieldByHandle |
| Elements.Element.GetFieldByHandle | src/base/Element.php:1578-1608 | a cached answer, "no such field" included, is returned without a registry lookup; otherwise the registry is asked under this element's field context and the answer cached; the service's context is restored |
| Elements.Element.GetFieldValue | src/base/Element.php:1516-1551 | a prepared value, null included, is returned from the cache with no hook call; an unknown handle is an error that leaves the cache unchanged; otherwise the value is read from the attached content model, or else from the stored one, which gets attached, or else from a new blank one; the value (null when unset) goes through `prepValue` when the field has a type and is cached |
| Elements.Element.GetProperty | src/base/Element.php:720-740 | a built-in property, read from the given map of built-in values, wins and leaves the field and content caches alone; else the field is looked up (from the cache, or the registry under the element's context); an unknown one is an unknown property; a known one yields its cached prepared value untouched, or the value read and prepared as `getFieldValue` does it |
| Sources.Lookup | src/base/Element.php:1623-1626 | present exactly when some entry has the key, and then it is an entry stored under the key |
| Sources.FindSource | src/base/Element.php:1621-1638 | definition: the sources stored under the key at this level, else the first truthy hit in the nested lists, in order; see FindSourceSound, FindSourceAbsent, FindSourceComplete |
| Sources.FindNested | src/base/Element.php:1630-1636 | definition of the `foreach` from a given entry on; see FindNestedSound, FindNestedAbsent, FindNestedComplete |
| Sources.FindSourceSound | src/base/Element.php:1621-1638 | whatever `_findSource` returns is stored under the key somewhere in the tree |
| Sources.FindNestedSound | src/base/Element.php:1630-1636 | the nested loop returns only sources stored under the key below the level |
| Sources.FindSourceAbsent | src/base/Element.php:1621-1638 | a key that occurs at no depth is not found |
| Sources.FindNestedAbsent | src/base/Element.php:1630-1636 | the nested loop finds nothing for a key that occurs nowhere |
| Sources.FindSourceComplete | src/base/Element.php:1621-1638 | when every source array is non-empty, a key that occurs at any depth is found, as a non-empty array |
| Sources.FindNestedComplete | src/base/Element.php:1630-1636 | the nested loop reaches any later entry whose nested list holds the key |
| Sources.SourceCache.constructor | src/base/Element.php:259-269 | the per-context memo starts empty |
| Sources.ContextKey | src/base/Element.php:261 | definition of `$context ? $context : '*'`: the context when it is truthy (set, not `""`, not `"0"`), else `*`; see GetSourceByKey |
| Sources.SourceCache.GetSourceByKey | src/base/Element.php:259-269 | the sources for a context key (the context when truthy, else `*`) are fetched once and then reused; the answer is `_findSource` over them |
| UrlManager.RTrim | src/business/web/BlocksUrlManager.php:214 | `rtrim`: a prefix of the input, the removed tail all in the mask, and the result does not end in the mask |
| UrlManager.LTrim | src/business/web/BlocksUrlManager.php:154 | `ltrim`: a suffix of the input, the removed head all in the mask, and the result does not start in the mask |
| UrlManager.Substr | src/business/web/BlocksUrlManager.php:138 | definition of `substr($s, $start)` for a non-negative start: the tail from `start`, or `""` past the end; see Prepare |
| UrlManager.Contains | src/business/web/BlocksUrlManager.php:26 | definition of `strpos($h, $n) !== false`: the needle occurs at some position of the haystack; see IsGiiRequest |
| UrlManager.AfterLast | src/business/web/BlocksUrlManager.php:173 | a suffix of the input that does not contain the given character |
| UrlManager.AfterLastStopsAtSeparator | src/business/web/BlocksUrlManager.php:173 | the suffix is the whole input or follows the character, so it starts after the last one |
| UrlManager.Extension | src/business/web/BlocksUrlManager.php:173-183 | definition of `pathinfo(…, PATHINFO_EXTENSION)` for paths not ending in `/` (as the probed file paths are): the part of the last path segment after its last `.`, or nothing when the segment has no `.`; see AfterLast, AfterLastStopsAtSeparator |
| UrlManager.Implode | src/business/web/BlocksUrlManager.php:163 | definition of `implode('/', …)`, the inverse by which `explode` is stated; see ExplodeImplode, ImplodeExplode |
| UrlManager.Explode | src/business/web/BlocksUrlManager.php:163 | `explode('/', …)` yields at least one segment |
| UrlManager.ExplodeImplode | src/business/web/BlocksUrlManager.php:163 | no segment holds a `/`, and joining the segments with `/` gives back the path |
| UrlManager.ImplodeExplode | src/business/web/BlocksUrlManager.php:163 | exploding slash-free segments joined by `/` gives back the segments |
| UrlManager.NormalizeTrailingSlash | src/business/web/BlocksUrlManager.php:212-216 | ends in `/`; the character before it is no separator; everything before it is the input's prefix and the dropped tail is all separators |
| UrlManager.RTrimStable | src/business/web/BlocksUrlManager.php:214 | trimming a string that does not end in the mask changes nothing |
| UrlManager.NormalizeTrailingSlashIdempotent | src/business/web/BlocksUrlManager.php:212-216 | normalising twice is normalising once |
| UrlManager.ExplodeHidden | src/business/web/BlocksUrlManager.php:163-168 | the first segment is hidden exactly when the path starts with `_`; a later segment is hidden exactly when some `_` follows a `/` |
| UrlManager.HiddenSegmentChars | src/business/web/BlocksUrlManager.php:162-168 | some segment starts with `_` exactly when some `_` stands at the start of the path or right after a `/` |
| UrlManager.TemplateOutcome | src/business/web/BlocksUrlManager.php:162-189 | a hidden segment gives no match; else the direct candidate `templatePath . requestPath` wins when found, recorded as `module/path`; only if it misses is the index candidate tried, recorded as `module` glued to `path/index`; both missing gives no match |
| UrlManager.Prepare | src/business/web/BlocksUrlManager.php:118-160 | definition of the locals `matchTemplate` holds at the hidden-segment check: module name, template path, request path and match pattern; see PrepareSlashes, MatchTemplate |
| UrlManager.PrepareSlashes | src/business/web/BlocksUrlManager.php:151-160 | the request path never starts with a separator; a non-empty request path leaves the template path ending in exactly one `/`; an empty one leaves it with no trailing separator |
| UrlManager.ExtensionTrimEatsName | src/business/web/BlocksUrlManager.php:124-129 | with extension `html`, `email.html` trims to `emai`: the mask also eats the name's trailing `l` |
| UrlManager.ExtensionTrimStopsAtName | src/business/web/BlocksUrlManager.php:124-129 | with extension `html`, `index.html` trims to `index` |
| UrlManager.HiddenSegmentScan | src/business/web/BlocksUrlManager.php:163-168 | the segment loop stops early exactly when some segment starts with `_` |
| UrlManager.IsGiiRequest | src/business/web/BlocksUrlManager.php:26 | definition: the current module is `gii`, or the `r` parameter contains `gii`; see ProcessTemplateMatching |
| UrlManager.MatchRoute | src/business/web/BlocksUrlManager.php:86-106 | definition: routes are commented out, so it is always false; see ProcessTemplateMatching |
| UrlManager.BlocksUrlManager.constructor | src/business/web/BlocksUrlManager.php:11-21 | `init` copies the path, its segments and its extension; no template match or module yet |
| UrlManager.BlocksUrlManager.GetCurrentModule | src/business/web/BlocksUrlManager.php:49-61 | a found module is kept; with no segments the slot stays as it was; otherwise the registry is asked for segment 0 |
| UrlManager.BlocksUrlManager.MatchTemplate | src/business/web/BlocksUrlManager.php:116-205 | answers true exactly when TemplateOutcome of the prepared paths is a match, and then records it; otherwise the recorded match is unchanged |
| UrlManager.BlocksUrlManager.ProbeTemplates | src/business/web/BlocksUrlManager.php:162-205 | from the prepared paths: answers true exactly when TemplateOutcome is a match, and then records it; otherwise the recorded match is unchanged |
| UrlManager.BlocksUrlManager.ProcessTemplateMatching | src/business/web/BlocksUrlManager.php:23-42 | gii requests change no match; a site request with a database and an entry match records it; otherwise the template match runs (routes never match); the module memo is updated |
| ConsoleCommandTest.TypeNameInjective | src/test/console/CommandTest.php:29-33 | the five type names are distinct, so comparing names compares types |
| ConsoleCommandTest.Step | src/test/console/CommandTest.php:243-358 | definition of one handler call: after a failure nothing changes; an exhausted chain fails; a wrong type moves the cursor and fails; a field mismatch counts the item and fails; a match counts it and adds the scripted reply; see Handle, ReplayFromStart |
| ConsoleCommandTest.ReplayCalls | src/test/console/CommandTest.php:243-378 | definition: the calls answered one after the other; see ReplayFromStart, ReplayKeepsOrder, ReplayAppend, ReplayFailureSticks |
| ConsoleCommandTest.Verdict | src/test/console/CommandTest.php:116-127 | definition of `run`'s outcome: a missing exit code, else the first handler failure, else an exit-code mismatch, else unhandled items, else a pass; see RunPassesIff, Run |
| ConsoleCommandTest.ReplayFromStart | src/test/console/CommandTest.php:243-378 | from a fresh cursor the calls are answered without failure exactly when each matches the item at its position; then each consumes and handles one item and receives its scripted reply |
| ConsoleCommandTest.RunPassesIff | src/test/console/CommandTest.php:116-127 | on a fresh chain, `run` passes exactly when the desired exit code is set and returned, and the calls match the items one for one, in order |
| ConsoleCommandTest.ReplayKeepsOrder | src/test/console/CommandTest.php:343-378 | the cursor never moves back or past the chain; the handled count never passes it and grows by at most one per call |
| ConsoleCommandTest.ReplayAppend | src/test/console/CommandTest.php:343-378 | answering two batches of calls in turn is answering them together |
| ConsoleCommandTest.ReplayFailureSticks | src/test/console/CommandTest.php:347-353 | once a handler has failed, later calls change nothing |
| ConsoleCommandTest.CommandTest.constructor | src/test/console/CommandTest.php:104-110 | empty chain, cursor 0, nothing handled, no exit code |
| ConsoleCommandTest.CommandTest.ExitCode | src/test/console/CommandTest.php:133-137 | stores the desired exit code and returns the same test |
| ConsoleCommandTest.CommandTest.AddEventChainItem | src/test/console/CommandTest.php:385-392 | appends exactly one item and returns the same test, keeping the cursor invariant |
| ConsoleCommandTest.CommandTest.StdOut | src/test/console/CommandTest.php:143-149 | appends one stdOut item with the desired output |
| ConsoleCommandTest.CommandTest.Stderr | src/test/console/CommandTest.php:155-161 | appends one stderr item with the desired output |
| ConsoleCommandTest.CommandTest.Prompt | src/test/console/CommandTest.php:169-177 | appends one prompt item with its text, options and return value |
| ConsoleCommandTest.CommandTest.Confirm | src/test/console/CommandTest.php:185-193 | appends one confirm item with its message, default and return value |
| ConsoleCommandTest.CommandTest.Select | src/test/console/CommandTest.php:201-209 | appends one select item with its prompt, options and return value |
| ConsoleCommandTest.CommandTest.GetNextItem | src/test/console/CommandTest.php:363-378 | nothing, without moving, exactly at the end of the chain; otherwise the item at the cursor, which advances by one |
| ConsoleCommandTest.CommandTest.RunHandlerCheck | src/test/console/CommandTest.php:343-358 | fails when no item remains; a wrong type throws after the cursor moved and counts nothing; a match counts one handled item |
| ConsoleCommandTest.CommandTest.Handle | src/test/console/CommandTest.php:243-335 | one handler call is one `Step`: the type check, the `assertSame` checks of text, options or default, then the scripted reply |
| ConsoleCommandTest.CommandTest.Run | src/test/console/CommandTest.php:116-127 | no exit code throws before the action runs, leaving the cursor and the handled count as they were; otherwise the verdict is the first handler failure, else an exit-code mismatch, else unhandled items, else a pass, and the cursor, count and replies end as the replay of the calls gives them |

## Left out

- Rendering, URLs and labels of the element (`getIndexHtml`, `getTableAttributeHtml`, `getEditorHtml`, `getLink`, `getUrl`, `__toString`, `attributeLabels`, `getTitle`): they depend on templates, configuration, the session and translation.
- Criteria execution: `getAncestors`, `getDescendants`, `getChildren` and `getSiblings` return criteria objects that the element caches and mutates in place. A query here is only the id list and elements it yields. How those cached criteria objects alias each other is not modelled.
- Elements.Element.SetContent: two readings of src/base/Element.php:1382-1397 are assumed. First, the `instanceof ContentModel` test (line 1393) is taken to test for the content model class; the name is not imported in the file's namespace, and if it resolved to no class PHP's `instanceof` would be false and a model argument would change nothing. Second, `setAttributes` (line 1391) is taken to assign every key; Yii's default assigns only attributes declared safe, so the model's merge may keep keys the real content model would drop.
- `UrlManager.Extension`: PHP's `pathinfo` drops trailing `/` before taking the basename (`a.b/` has extension `b`); the model reads the text after the last `/`, which agrees for the file paths `matchTemplate` passes it.
- Elements.Element.GetProperty: the built-in tier of `__get` (`parent::__get`, src/base/Element.php:724) is a map of values given as input. The getters it would call are not run, so the model does not capture their side effects on this element (`content` attaching a content model through `getContent`, `parent` querying and caching through `getParent`, `prevSibling`/`nextSibling` memoising). It also does not model the `InvalidCallException` for a write-only property; no property of this class is write-only.
- `rules()`, `populateModel`, `__isset` and `offsetExists`: framework behaviour. `__get` is modelled only as the two-tier lookup `Elements.Element.GetProperty`.
- The string branch of `setContentFromPost`: it reads request body parameters and `UploadedFile`. The posted map and the "file uploaded" test are inputs instead.
- The `element` binding that `setContentFromPost` (src/base/Element.php:1456-1458) and `getFieldValue` (src/base/Element.php:1539-1544) place on a field type before preparing a value: it is an assignment on a foreign object.
- Bytes and characters: PHP's `rtrim`, `ltrim`, `strlen`, `substr` and `explode` work on bytes, while the model's strings are sequences of Unicode characters. The two agree when the masks, separators and module names are ASCII, as they are here (`/`, `\`, `.` and the extension's letters); a multi-byte module name or extension is not modelled byte for byte.
- Negative coordinates and ids: they are `nat` here. PHP compares `null` with a negative number differently from 0 (`null < -1` holds), so an element with negative nested-set values is outside the model.
- Exceptions thrown by the field registry while the field context is switched: the source has no `finally`, so a throwing registry would leave the context switched. The registry is a total function here.
- `Elements.Element.IsSiblingOf` does not state symmetry: with an arbitrary parent answer the relation is not symmetric.
- `Sources.SourceCache.GetSourceByKey`: a `getSources` that returns `null` would be fetched again on every call, because `isset` fails on `null`; here its answer is always a list (`false` is the empty list).
- `matchEntry`, `init`'s request object and the filesystem probe `matchTemplatePathWithAllowedFileExtensions` are inputs to the URL manager. `matchEntry` is represented only by the template match it finds. It passes the extension and the match type to `setTemplateMatch` in swapped positions, which this model does not reproduce.
- `getTemplateMatch`: a plain getter of the `templateMatch` field.
- `rtrim` ranges: PHP reads `a..z` in a character mask as a range. `UrlManager.RTrim` treats every character literally, which differs only for extensions containing `..`.
- `setupController`, the Codeception `Stub` and the Craft application: the controller is replaced by the sequence of console calls one run of the action makes. Because that sequence is given in full, the model does not capture how the action's later calls depend on the replies it received.
- `ConsoleCommandTest.CommandTest.Run`: PHPUnit's `assertSame` is strict on PHP types. Here the exit code is an `int` and option and return values are a small `Value` datatype, so type juggling between, for example, `"1"` and `1` does not arise.
- Field context and persistence services (`ContentService` and the content-table helpers): database access. The content service appears only as its `fieldContext`.
